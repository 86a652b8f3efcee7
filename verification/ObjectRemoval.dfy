/**
  Removing one registered object: what goes, and what the other objects' views keep.
 */
module ObjectRemoval {
  import opened Prelude
  import opened TemporalAssertions
  import opened AssertionStore
  import opened AsOf

  /** Exactly the object's assertions and their payloads go, and no link dangles. */
  lemma RemovalLeavesNothingBehind(db: Db, o: Uuid)
    requires Valid(db) && o in db.registry
    ensures var after := Removed(db, o);
      && Valid(after)
      && o !in after.registry
      && (forall k :: k in after.assertions <==> k in db.assertions && db.assertions[k].objectId != o)
      && (forall k :: k in after.states <==> k in db.states && db.assertions[k].objectId != o)
      && (forall k :: k in after.assertions && after.assertions[k].supersedes.Some? ==>
            after.assertions[k].supersedes.value in after.assertions)
  {
    ApplyKeepsValid(db, Unregister(o));
  }

  // ---------- the command's view of the other objects ----------

  /** Only the object's own rows count, and a dropped link never pointed at one of them. */
  lemma OwnRowsAfterRemoval(db: Db, o: Uuid, p: Uuid, id: Uuid, pair: TimePair)
    requires Valid(db) && o in db.registry && p != o
    ensures OwnStands(Removed(db, o), p, id, pair) <==> OwnStands(db, p, id, pair)
  {
    var after := Removed(db, o);
    if id in db.assertions && db.assertions[id].objectId == p {
      if k :| k in db.assertions && Replaces(CommandView, db, k, id, pair.knownAt) {
        assert Replaces(CommandView, after, k, id, pair.knownAt);
      }
      if k :| k in after.assertions && Replaces(CommandView, after, k, id, pair.knownAt) {
        assert Replaces(CommandView, db, k, id, pair.knownAt);
      }
    }
  }

  /** Every other object keeps its answer at every pair of times, whatever the links; the
      returned row differs at most in a link that named a removed assertion. */
  lemma RemovalIsLocalForCommands(db: Db, o: Uuid, p: Uuid, pair: TimePair)
    requires Valid(db) && p != o
    ensures var was, now := CommandAnswer(db, p, pair), CommandAnswer(Removed(db, o), p, pair);
      match was
      case Ambiguous => now.Ambiguous?
      case Absent => now.Absent?
      case Found(row) => now == Found(Unlinked(row, Victims(db, o)))
  {
    if o in db.registry {
      ApplyKeepsValid(db, Unregister(o));
      forall id ensures OwnStands(Removed(db, o), p, id, pair) <==> OwnStands(db, p, id, pair) {
        OwnRowsAfterRemoval(db, o, p, id, pair);
      }
      SameStandersSameAnswer(db, Removed(db, o), p, pair);
      CommandAnswerById(db, p, pair);
    } else {
      assert forall k :: k !in Victims(db, o);
    }
  }

  // ---------- the database's view of the other objects ----------

  /** Some row that stays supersedes `target` by the time both it and `source` are known. */
  ghost predicate CoveredOutside(db: Db, o: Uuid, source: Uuid, target: Uuid)
    requires Valid(db) && source in db.assertions && target in db.assertions
  {
    exists t :: t in db.assertions && db.assertions[t].objectId != o && db.assertions[t].supersedes == Some(target)
      && KnownBy(db.assertions[t], BothKnown(db, source, target))
  }

  /** Every link from the object's rows to the target is covered by a row that stays. */
  ghost predicate RowCovered(db: Db, o: Uuid, target: Uuid)
    requires Valid(db) && target in db.assertions
  {
    forall s | s in db.assertions && db.assertions[s].objectId == o && db.assertions[s].supersedes == Some(target) ::
      CoveredOutside(db, o, s, target)
  }

  /** That holds of every row of another object. */
  ghost predicate OutwardLinksCovered(db: Db, o: Uuid)
    requires Valid(db)
  {
    forall r | r in db.assertions && db.assertions[r].objectId != o :: RowCovered(db, o, r)
  }

  /** That holds of every row of another object that the as-of function can read. */
  ghost predicate ReadableLinksCovered(db: Db, o: Uuid)
    requires Valid(db)
  {
    forall r | r in db.assertions && db.assertions[r].objectId != o && Readable(db, r) :: RowCovered(db, o, r)
  }

  lemma SuccessorsAfterRemoval(db: Db, o: Uuid, id: Uuid, known: Instant)
    requires Valid(db) && o in db.registry && id in Removed(db, o).assertions
    ensures HasSuccessor(Removed(db, o), id, known) <==>
      exists k :: k in db.assertions && db.assertions[k].objectId != o
        && db.assertions[k].supersedes == Some(id) && KnownBy(db.assertions[k], known)
  {
    var after := Removed(db, o);
    if HasSuccessor(after, id, known) {
      var k :| k in after.assertions && after.assertions[k].supersedes == Some(id) && KnownBy(after.assertions[k], known);
      assert db.assertions[k].objectId != o;
    }
    if exists k :: k in db.assertions && db.assertions[k].objectId != o
        && db.assertions[k].supersedes == Some(id) && KnownBy(db.assertions[k], known) {
      var k :| k in db.assertions && db.assertions[k].objectId != o
        && db.assertions[k].supersedes == Some(id) && KnownBy(db.assertions[k], known);
      assert after.assertions[k] == db.assertions[k];
    }
  }

  lemma AcceptedAfterCoveredRemoval(db: Db, o: Uuid, id: Uuid, pair: TimePair)
    requires Valid(db) && o in db.registry && id in Removed(db, o).assertions && RowCovered(db, o, id)
    ensures AcceptedAt(Removed(db, o), id, pair) <==> AcceptedAt(db, id, pair)
  {
    SuccessorsAfterRemoval(db, o, id, pair.knownAt);
    if IsVisible(db.assertions[id], pair) && HasSuccessor(db, id, pair.knownAt) {
      var k :| k in db.assertions && db.assertions[k].supersedes == Some(id) && KnownBy(db.assertions[k], pair.knownAt);
      if db.assertions[k].objectId == o {
        assert CoveredOutside(db, o, k, id);
      }
    }
  }

  /** A link that is not covered hides its target now and will not once the object is gone. */
  lemma UncoveredRowAppears(db: Db, o: Uuid, s: Uuid, r: Uuid)
    requires Valid(db) && o in db.registry
    requires s in db.assertions && db.assertions[s].objectId == o && db.assertions[s].supersedes == Some(r)
    requires r in db.assertions && db.assertions[r].objectId != o && !CoveredOutside(db, o, s, r)
    ensures var pair := TimePair(db.assertions[r].effectiveFrom.value, BothKnown(db, s, r));
      !AcceptedAt(db, r, pair) && AcceptedAt(Removed(db, o), r, pair)
  {
    var pair := TimePair(db.assertions[r].effectiveFrom.value, BothKnown(db, s, r));
    assert HasSuccessor(db, r, pair.knownAt);
    assert IsVisible(Removed(db, o).assertions[r], pair);
    SuccessorsAfterRemoval(db, o, r, pair.knownAt);
  }

  /** The database's acceptance of every remaining row is unchanged at all times exactly when
      the outward links are covered; with no outward link at all it always is. */
  lemma RemovalIsLocalForDatabaseIff(db: Db, o: Uuid)
    requires Valid(db) && o in db.registry
    ensures (forall id, pair | id in Removed(db, o).assertions ::
              AcceptedAt(Removed(db, o), id, pair) <==> AcceptedAt(db, id, pair))
      <==> OutwardLinksCovered(db, o)
  {
    var after := Removed(db, o);
    if OutwardLinksCovered(db, o) {
      forall id, pair | id in after.assertions
        ensures AcceptedAt(after, id, pair) <==> AcceptedAt(db, id, pair)
      {
        AcceptedAfterCoveredRemoval(db, o, id, pair);
      }
    } else {
      var r :| r in db.assertions && db.assertions[r].objectId != o && !RowCovered(db, o, r);
      var s :| s in db.assertions && db.assertions[s].objectId == o && db.assertions[s].supersedes == Some(r)
        && !CoveredOutside(db, o, s, r);
      UncoveredRowAppears(db, o, s, r);
    }
  }

  ghost predicate SameStateRows(db: Db, o: Uuid, p: Uuid, pair: TimePair)
    requires Valid(db)
  {
    forall id :: StateRowVisible(Removed(db, o), p, id, pair) <==> StateRowVisible(db, p, id, pair)
  }

  lemma CoveredRemovalKeepsStateRows(db: Db, o: Uuid, p: Uuid, pair: TimePair)
    requires Valid(db) && o in db.registry && p != o && ReadableLinksCovered(db, o)
    ensures SameStateRows(db, o, p, pair)
  {
    var after := Removed(db, o);
    forall id ensures StateRowVisible(after, p, id, pair) <==> StateRowVisible(db, p, id, pair) {
      if id in after.assertions && Readable(db, id) {
        AcceptedAfterCoveredRemoval(db, o, id, pair);
      }
    }
  }

  /** The attachment view lets every other object's rows be seen just as before exactly when the
      outward links to readable rows are covered. */
  lemma RemovalIsLocalForStateRowsIff(db: Db, o: Uuid)
    requires Valid(db) && o in db.registry
    ensures (forall p, pair | p != o :: SameStateRows(db, o, p, pair)) <==> ReadableLinksCovered(db, o)
  {
    if ReadableLinksCovered(db, o) {
      forall p, pair | p != o ensures SameStateRows(db, o, p, pair) {
        CoveredRemovalKeepsStateRows(db, o, p, pair);
      }
    } else {
      var r :| r in db.assertions && db.assertions[r].objectId != o && Readable(db, r) && !RowCovered(db, o, r);
      var s :| s in db.assertions && db.assertions[s].objectId == o && db.assertions[s].supersedes == Some(r)
        && !CoveredOutside(db, o, s, r);
      UncoveredRowAppears(db, o, s, r);
      var p, pair := db.assertions[r].objectId, TimePair(db.assertions[r].effectiveFrom.value, BothKnown(db, s, r));
      assert StateRowVisible(Removed(db, o), p, r, pair) && !StateRowVisible(db, p, r, pair);
      assert !SameStateRows(db, o, p, pair);
    }
  }

  /** Then the attachment view of every other object answers as before. */
  lemma RemovalIsLocalForAttachments(db: Db, o: Uuid, p: Uuid, pair: TimePair)
    requires Valid(db) && o in db.registry && p != o && ReadableLinksCovered(db, o)
    ensures DatabaseAnswer(Removed(db, o), p, pair) == DatabaseAnswer(db, p, pair)
  {
    CoveredRemovalKeepsStateRows(db, o, p, pair);
  }
}
