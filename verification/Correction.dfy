/**
  Correcting part of an accepted interval.

  A correction appends several successors to one original, all recorded at one instant:
  copies of the parts that stay and a corrected (or deleting) middle.
 */
module Correction {
  import opened Prelude
  import opened TemporalAssertions
  import opened AssertionStore
  import opened AsOf

  /** An original that nothing supersedes, in a history recorded before `now`. */
  ghost predicate Correctable(h: multiset<Assertion>, original: Assertion, now: Instant) {
    && original in h && original.recordedAt.Some?
    && (forall a :: a in h && a.recordedAt.Some? ==> a.recordedAt.value < now)
    && (forall a :: a in h ==> a.supersedes != Some(original.id))
    && (forall a :: a in h && a.id == original.id ==> a == original)
  }

  /** New rows recorded at `now`, each naming the original as what it supersedes. */
  ghost predicate FreshSuccessors(h: multiset<Assertion>, original: Assertion, pieces: set<Assertion>, now: Instant) {
    && (forall p :: p in pieces ==> p.recordedAt == Some(now) && p.supersedes == Some(original.id))
    && (forall p, a :: p in pieces && a in h ==> a.id != p.id && a.supersedes != Some(p.id))
  }

  /** Every act date of the original falls in exactly one piece, and no other act date in any. */
  ghost predicate Partitions(original: Assertion, pieces: set<Assertion>) {
    && (forall p, act :: p in pieces && InForce(p, act) ==> InForce(original, act))
    && (forall act :: InForce(original, act) ==> exists p :: p in pieces && InForce(p, act))
    && (forall p, q, act :: p in pieces && q in pieces && InForce(p, act) && InForce(q, act) ==> p == q)
  }

  ghost function Corrected(h: multiset<Assertion>, pieces: set<Assertion>): multiset<Assertion> {
    h + multiset(pieces)
  }

  lemma SupersededAfter(h: multiset<Assertion>, original: Assertion, pieces: set<Assertion>, now: Instant,
                        id: Uuid, known: Instant)
    requires Correctable(h, original, now) && FreshSuccessors(h, original, pieces, now)
    ensures Superseded(Corrected(h, pieces), id, known) <==>
      Superseded(h, id, known) || (id == original.id && pieces != {} && now <= known)
  {
    var k := Corrected(h, pieces);
    if Superseded(h, id, known) {
      var s :| s in h && s.supersedes == Some(id) && KnownBy(s, known);
      assert s in k;
    }
    if id == original.id && pieces != {} && now <= known {
      var p := AnyMember(pieces);
      assert p in k;
    }
  }

  /** Until the correction is recorded nothing changes.  From then on the original gives way
      to its pieces and every other row survives as before. */
  lemma SurvivorsAfter(h: multiset<Assertion>, original: Assertion, pieces: set<Assertion>, now: Instant,
                       a: Assertion, pair: TimePair)
    requires Correctable(h, original, now) && FreshSuccessors(h, original, pieces, now) && pieces != {}
    ensures Survives(Corrected(h, pieces), a, pair) <==>
      if pair.knownAt < now then Survives(h, a, pair)
      else (a in pieces && InForce(a, pair.actDate)) || (a != original && Survives(h, a, pair))
    ensures a in h ==> a !in pieces && Corrected(h, pieces)[a] == h[a]
    ensures a in pieces ==> Corrected(h, pieces)[a] == 1
  {
    SupersededAfter(h, original, pieces, now, a.id, pair.knownAt);
    if a in pieces && Superseded(h, a.id, pair.knownAt) {
      assert false;
    }
  }

  /** While it is known and in force, an unsuperseded original is the only survivor. */
  lemma OriginalStandsAlone(h: multiset<Assertion>, original: Assertion, now: Instant, a: Assertion, pair: TimePair)
    requires Correctable(h, original, now) && !Conflict(h, pair)
    requires now <= pair.knownAt && InForce(original, pair.actDate) && Survives(h, a, pair)
    ensures a == original
  {
    assert Survives(h, original, pair);
  }

  /** The correction leaves every earlier known time as it was, splits the original's interval
      among its pieces, leaves all other act dates alone and introduces no ambiguity. */
  lemma PartialCorrection(h: multiset<Assertion>, original: Assertion, pieces: set<Assertion>, now: Instant, pair: TimePair)
    requires Correctable(h, original, now) && FreshSuccessors(h, original, pieces, now)
    requires Partitions(original, pieces) && pieces != {}
    requires !Conflict(h, pair)
    ensures !Conflict(Corrected(h, pieces), pair)
    ensures pair.knownAt < now || !InForce(original, pair.actDate) ==>
      Resolve(Corrected(h, pieces), pair) == Resolve(h, pair)
    ensures now <= pair.knownAt && InForce(original, pair.actDate) ==>
      exists p :: p in pieces && InForce(p, pair.actDate)
        && Resolve(Corrected(h, pieces), pair) == if p.kind == Deletion then Absent else Found(p)
  {
    var k := Corrected(h, pieces);
    forall a ensures
      && (Survives(k, a, pair) <==>
        if pair.knownAt < now then Survives(h, a, pair)
        else (a in pieces && InForce(a, pair.actDate)) || (a != original && Survives(h, a, pair)))
      && (a in h ==> a !in pieces && k[a] == h[a]) && (a in pieces ==> k[a] == 1)
    {
      SurvivorsAfter(h, original, pieces, now, a, pair);
    }
    if pair.knownAt < now || !InForce(original, pair.actDate) {
      ResolveCongruence(h, k, pair);
    } else {
      forall a | Survives(h, a, pair) ensures a == original {
        OriginalStandsAlone(h, original, now, a, pair);
      }
      var p :| p in pieces && InForce(p, pair.actDate);
      assert forall a :: Survives(k, a, pair) <==> a == p;
      if p.kind != Deletion {
        SoleSurvivor(k, p, pair);
      }
    }
  }

  /** Overlapping pieces are what breaks it: at a shared act date the history turns ambiguous. */
  lemma OverlapIsAmbiguous(h: multiset<Assertion>, original: Assertion, pieces: set<Assertion>, now: Instant,
                           p: Assertion, q: Assertion, pair: TimePair)
    requires Correctable(h, original, now) && FreshSuccessors(h, original, pieces, now)
    requires p in pieces && q in pieces && p != q
    requires InForce(p, pair.actDate) && InForce(q, pair.actDate) && now <= pair.knownAt
    ensures Resolve(Corrected(h, pieces), pair).Ambiguous?
  {
    SurvivorsAfter(h, original, pieces, now, p, pair);
    SurvivorsAfter(h, original, pieces, now, q, pair);
  }

  // ---------- the pieces themselves ----------

  datatype Draft = Draft(id: Uuid, kind: Kind, revision: int, acceptance: Acceptance)

  /** Interval bounds of the i-th piece when the original is cut at the given instants. */
  function PieceFrom(original: Assertion, cuts: seq<Instant>, i: nat): Option<Instant>
    requires i <= |cuts|
  {
    if i == 0 then original.effectiveFrom else Some(cuts[i - 1])
  }

  function PieceUntil(original: Assertion, cuts: seq<Instant>, i: nat): Option<Instant>
    requires i <= |cuts|
  {
    if i == |cuts| then original.effectiveUntil else Some(cuts[i])
  }

  function Piece(original: Assertion, cuts: seq<Instant>, d: Draft, i: nat, now: Instant): Assertion
    requires i <= |cuts|
  {
    Assertion(d.id, original.objectId, original.family, d.kind, d.revision, Some(original.id),
              PieceFrom(original, cuts, i), PieceUntil(original, cuts, i), Some(now), d.acceptance)
  }

  ghost predicate CutsInside(original: Assertion, cuts: seq<Instant>) {
    && original.effectiveFrom.Some?
    && (forall i :: 0 <= i < |cuts| ==> original.effectiveFrom.value < cuts[i])
    && (forall i, j :: 0 <= i < j < |cuts| ==> cuts[i] < cuts[j])
    && (original.effectiveUntil.Some? ==>
          && original.effectiveFrom.value < original.effectiveUntil.value
          && forall i :: 0 <= i < |cuts| ==> cuts[i] < original.effectiveUntil.value)
  }

  ghost function Pieces(original: Assertion, cuts: seq<Instant>, drafts: seq<Draft>, now: Instant): set<Assertion>
    requires |drafts| == |cuts| + 1
  {
    set i | 0 <= i < |drafts| :: Piece(original, cuts, drafts[i], i, now)
  }

  /** The piece that holds an act date: the one after the last cut at or before it. */
  function PieceIndex(cuts: seq<Instant>, act: Instant): nat
    ensures PieceIndex(cuts, act) <= |cuts|
  {
    if cuts == [] || cuts[|cuts| - 1] <= act then |cuts| else PieceIndex(cuts[..|cuts| - 1], act)
  }

  lemma {:induction false} PieceIndexHolds(cuts: seq<Instant>, act: Instant)
    requires forall i, j :: 0 <= i < j < |cuts| ==> cuts[i] < cuts[j]
    ensures forall i :: 0 <= i < |cuts| ==> (cuts[i] <= act <==> i < PieceIndex(cuts, act))
  {
    if cuts != [] && cuts[|cuts| - 1] > act {
      var init := cuts[..|cuts| - 1];
      PieceIndexHolds(init, act);
      assert forall i :: 0 <= i < |init| ==> cuts[i] == init[i];
    }
  }

  lemma InForceIsPieceIndex(original: Assertion, cuts: seq<Instant>, d: Draft, i: nat, now: Instant, act: Instant)
    requires CutsInside(original, cuts) && i <= |cuts|
    ensures InForce(Piece(original, cuts, d, i, now), act) <==> InForce(original, act) && i == PieceIndex(cuts, act)
  {
    PieceIndexHolds(cuts, act);
  }

  lemma PieceHolds(original: Assertion, cuts: seq<Instant>, drafts: seq<Draft>, now: Instant, p: Assertion, act: Instant)
    requires CutsInside(original, cuts) && |drafts| == |cuts| + 1 && p in Pieces(original, cuts, drafts, now)
    ensures InForce(p, act) <==>
      InForce(original, act) && p == Piece(original, cuts, drafts[PieceIndex(cuts, act)], PieceIndex(cuts, act), now)
    ensures p.effectiveFrom.Some? && (p.effectiveUntil.Some? ==> p.effectiveFrom.value < p.effectiveUntil.value)
  {
    var i :| 0 <= i < |drafts| && p == Piece(original, cuts, drafts[i], i, now);
    InForceIsPieceIndex(original, cuts, drafts[i], i, now, act);
    var k := PieceIndex(cuts, act);
    InForceIsPieceIndex(original, cuts, drafts[k], k, now, act);
  }

  /** Cutting the interval at increasing instants gives non-empty half-open pieces that
      partition it; two cuts are the left copy, corrected overlap and right copy. */
  lemma CutsPartition(original: Assertion, cuts: seq<Instant>, drafts: seq<Draft>, now: Instant)
    requires CutsInside(original, cuts) && |drafts| == |cuts| + 1
    ensures Partitions(original, Pieces(original, cuts, drafts, now)) && Pieces(original, cuts, drafts, now) != {}
    ensures forall p :: p in Pieces(original, cuts, drafts, now) ==>
      p.effectiveFrom.Some? && (p.effectiveUntil.Some? ==> p.effectiveFrom.value < p.effectiveUntil.value)
  {
    var pieces := Pieces(original, cuts, drafts, now);
    assert Piece(original, cuts, drafts[0], 0, now) in pieces;
    forall p | p in pieces
      ensures p.effectiveFrom.Some? && (p.effectiveUntil.Some? ==> p.effectiveFrom.value < p.effectiveUntil.value)
    {
      PieceHolds(original, cuts, drafts, now, p, 0);
    }
    forall p, act | p in pieces
      ensures InForce(p, act) <==>
        InForce(original, act) && p == Piece(original, cuts, drafts[PieceIndex(cuts, act)], PieceIndex(cuts, act), now)
    {
      PieceHolds(original, cuts, drafts, now, p, act);
    }
    forall act | InForce(original, act)
      ensures exists p :: p in pieces && InForce(p, act)
    {
      var i := PieceIndex(cuts, act);
      var p := Piece(original, cuts, drafts[i], i, now);
      assert p in pieces && InForce(p, act);
    }
  }

  // ---------- appending the pieces ----------

  function Appends(rows: seq<Assertion>): seq<Statement>
    ensures |Appends(rows)| == |rows|
  {
    seq(|rows|, i requires 0 <= i < |rows| => InsertAssertion(rows[i]))
  }

  lemma HistoryAfterInsert(db: Db, a: Assertion)
    requires Valid(db) && Insertable(db, a)
    ensures History(Apply(db, InsertAssertion(a)), a.objectId) == History(db, a.objectId) + multiset{a}
  {
    var next := Apply(db, InsertAssertion(a));
    ApplyKeepsValid(db, InsertAssertion(a));
    forall b ensures History(next, a.objectId)[b] == (History(db, a.objectId) + multiset{a})[b]
    {
      InHistory(db, a.objectId, b);
      InHistory(next, a.objectId, b);
    }
  }

  lemma StillInsertable(db: Db, a: Assertion, b: Assertion)
    requires Insertable(db, a) && Insertable(db, b) && a.id != b.id && a.revision != b.revision
    ensures Insertable(Apply(db, InsertAssertion(a)), b)
  {
  }

  /** Rows that pass the constraints one by one are appended and nothing else changes. */
  lemma {:induction false} AppendsExtendHistory(db: Db, rows: seq<Assertion>, o: Uuid)
    requires Valid(db)
    requires forall i :: 0 <= i < |rows| ==> Insertable(db, rows[i]) && rows[i].objectId == o
    requires forall i, j :: 0 <= i < j < |rows| ==> rows[i].id != rows[j].id && rows[i].revision != rows[j].revision
    ensures Valid(Run(db, Appends(rows)))
    ensures History(Run(db, Appends(rows)), o) == History(db, o) + multiset(rows)
    decreases |rows|
  {
    if rows == [] {
      assert Run(db, Appends(rows)) == db;
    } else {
      var next := Apply(db, InsertAssertion(rows[0]));
      ApplyKeepsValid(db, InsertAssertion(rows[0]));
      assert Appends(rows)[1..] == Appends(rows[1..]);
      HistoryAfterInsert(db, rows[0]);
      forall i | 0 <= i < |rows[1..]|
        ensures Insertable(next, rows[1..][i])
      {
        StillInsertable(db, rows[0], rows[i + 1]);
      }
      AppendsExtendHistory(next, rows[1..], o);
      assert rows == [rows[0]] + rows[1..];
    }
  }

  function PieceRows(original: Assertion, cuts: seq<Instant>, drafts: seq<Draft>, now: Instant): (rows: seq<Assertion>)
    requires |drafts| == |cuts| + 1
    ensures |rows| == |drafts|
  {
    seq(|drafts|, i requires 0 <= i < |drafts| => Piece(original, cuts, drafts[i], i, now))
  }

  lemma RowsArePieces(original: Assertion, cuts: seq<Instant>, drafts: seq<Draft>, now: Instant)
    requires |drafts| == |cuts| + 1
    requires forall i, j :: 0 <= i < j < |drafts| ==> drafts[i].id != drafts[j].id
    ensures multiset(PieceRows(original, cuts, drafts, now)) == multiset(Pieces(original, cuts, drafts, now))
  {
    var rows, pieces := PieceRows(original, cuts, drafts, now), Pieces(original, cuts, drafts, now);
    forall a ensures multiset(rows)[a] == multiset(pieces)[a]
    {
      assert a in multiset(rows) <==> a in rows;
      if a in rows {
        var i :| 0 <= i < |rows| && rows[i] == a;
        OccursOnce(rows, i);
        assert Piece(original, cuts, drafts[i], i, now) in pieces;
      }
      if a in pieces {
        var i :| 0 <= i < |drafts| && a == Piece(original, cuts, drafts[i], i, now);
        assert rows[i] == a;
      }
    }
  }

  lemma OccursOnce(rows: seq<Assertion>, i: nat)
    requires i < |rows|
    requires forall j, k :: 0 <= j < k < |rows| ==> rows[j].id != rows[k].id
    ensures multiset(rows)[rows[i]] == 1
  {
    var before, after := rows[..i], rows[i + 1..];
    assert rows == before + [rows[i]] + after;
    assert rows[i] !in before && rows[i] !in after;
    assert rows[i] !in multiset(before) && rows[i] !in multiset(after);
  }

  /** The table's constraints give the correction what it needs of the history. */
  lemma TablesAreCorrectable(db: Db, id: Uuid, cuts: seq<Instant>, drafts: seq<Draft>, now: Instant)
    requires Valid(db) && id in db.assertions && |drafts| == |cuts| + 1
    requires forall k :: k in db.assertions && db.assertions[k].objectId == db.assertions[id].objectId ==>
      db.assertions[k].recordedAt.value < now && db.assertions[k].supersedes != Some(id)
    requires forall i :: 0 <= i < |drafts| ==> Insertable(db, Piece(db.assertions[id], cuts, drafts[i], i, now))
    ensures var h := History(db, db.assertions[id].objectId);
      && Correctable(h, db.assertions[id], now)
      && FreshSuccessors(h, db.assertions[id], Pieces(db.assertions[id], cuts, drafts, now), now)
  {
    forall a ensures a in History(db, db.assertions[id].objectId) <==>
      a.id in db.assertions && db.assertions[a.id] == a && a.objectId == db.assertions[id].objectId
    {
      InHistory(db, db.assertions[id].objectId, a);
    }
  }

  /** End to end: cutting an unsuperseded row of an unambiguous object and appending the
      pieces at one later instant.  Earlier known times keep their answers, later ones see
      the piece that holds the act date, and no pair of times turns ambiguous. */
  lemma CorrectingAnInterval(db: Db, id: Uuid, cuts: seq<Instant>, drafts: seq<Draft>, now: Instant, pair: TimePair)
    requires Valid(db) && id in db.assertions && |drafts| == |cuts| + 1
    requires CutsInside(db.assertions[id], cuts)
    requires forall k :: k in db.assertions && db.assertions[k].objectId == db.assertions[id].objectId ==>
      db.assertions[k].recordedAt.value < now && db.assertions[k].supersedes != Some(id)
    requires forall i :: 0 <= i < |drafts| ==> Insertable(db, Piece(db.assertions[id], cuts, drafts[i], i, now))
    requires forall i, j :: 0 <= i < j < |drafts| ==> drafts[i].id != drafts[j].id && drafts[i].revision != drafts[j].revision
    requires !CommandAnswer(db, db.assertions[id].objectId, pair).Ambiguous?
    ensures var original := db.assertions[id];
      var after := Run(db, Appends(PieceRows(original, cuts, drafts, now)));
      var i := PieceIndex(cuts, pair.actDate);
      && Valid(after)
      && CommandAnswer(after, original.objectId, pair) ==
        if pair.knownAt < now || !InForce(original, pair.actDate) then CommandAnswer(db, original.objectId, pair)
        else if drafts[i].kind == Deletion then Absent
        else Found(Piece(original, cuts, drafts[i], i, now))
  {
    var original := db.assertions[id];
    var h := History(db, original.objectId);
    var rows, pieces := PieceRows(original, cuts, drafts, now), Pieces(original, cuts, drafts, now);
    AppendsExtendHistory(db, rows, original.objectId);
    RowsArePieces(original, cuts, drafts, now);
    CutsPartition(original, cuts, drafts, now);
    TablesAreCorrectable(db, id, cuts, drafts, now);
    PartialCorrection(h, original, pieces, now, pair);
    if now <= pair.knownAt && InForce(original, pair.actDate) {
      var p :| p in pieces && InForce(p, pair.actDate)
        && Resolve(Corrected(h, pieces), pair) == if p.kind == Deletion then Absent else Found(p);
      var i :| 0 <= i < |drafts| && p == Piece(original, cuts, drafts[i], i, now);
      InForceIsPieceIndex(original, cuts, drafts[i], i, now, pair.actDate);
    }
  }
}
