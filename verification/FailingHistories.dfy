/**
  Small valid tables on which a promise of the assertion store fails.

  Each lemma shows one concrete input; the exact conditions are proved in `AsOf`,
  `LostEvidence` and `ObjectRemoval`.
 */
module FailingHistories {
  import opened Prelude
  import opened TemporalAssertions
  import opened ObjectRegistry
  import opened AssertionStore
  import opened AsOf
  import opened LostEvidence
  import opened ObjectRemoval

  /** Two registered attachments, objects 1 and 2. */
  const REGISTRY: map<Uuid, Entry> := map[
    1 := Entry(ObjectKind.ContentAttachment, ContentAttachments),
    2 := Entry(ObjectKind.ContentAttachment, ContentAttachments)]

  /** An attachment payload in force from instant 0 on. */
  function Row(id: Uuid, o: Uuid, supersedes: Option<Uuid>, recorded: Instant): Assertion {
    Assertion(id, o, ATTACHMENT_FAMILY, Payload, if id > 0 then id else 1, supersedes,
              Some(0), None, Some(recorded), Acceptance(None, None, None, None))
  }

  /** Row 10 of object 1, superseded by row 11 of object 1 and by row 12 of object 2. */
  const TWICE_SUPERSEDED := Db(REGISTRY,
    map[10 := Row(10, 1, None, 0), 11 := Row(11, 1, Some(10), 1), 12 := Row(12, 2, Some(10), 1)],
    map[])

  /** Row 10 of object 1, superseded only by row 12 of object 2. */
  const FOREIGN_ONLY := Db(REGISTRY,
    map[10 := Row(10, 1, None, 0), 12 := Row(12, 2, Some(10), 1)],
    map[10 := true, 12 := true])

  const NOW := TimePair(0, 1)

  lemma TwiceSupersededIsValid()
    ensures Valid(TWICE_SUPERSEDED)
  {
    var db := TWICE_SUPERSEDED;
    assert db.assertions.Keys == {10, 11, 12} && db.registry.Keys == {1, 2};
    var first, second, third := db.assertions[10], db.assertions[11], db.assertions[12];
    assert first == Row(10, 1, None, 0) && second == Row(11, 1, Some(10), 1) && third == Row(12, 2, Some(10), 1);
    assert RowConstraints(first) && RowConstraints(second) && RowConstraints(third);
    assert References(db, first) && References(db, second) && References(db, third);
    assert Allowlisted(db.registry[1]) && Allowlisted(db.registry[2]);
    assert first.revision == 10 && second.revision == 11 && third.revision == 12;
  }

  lemma ForeignOnlyIsValid()
    ensures Valid(FOREIGN_ONLY)
  {
    var db := FOREIGN_ONLY;
    assert db.assertions.Keys == {10, 12} && db.states.Keys == {10, 12} && db.registry.Keys == {1, 2};
    var first, second := db.assertions[10], db.assertions[12];
    assert first == Row(10, 1, None, 0) && second == Row(12, 2, Some(10), 1);
    assert RowConstraints(first) && RowConstraints(second);
    assert References(db, first) && References(db, second);
    assert StateAgrees(db, 10, true) && StateAgrees(db, 12, true);
  }

  lemma OnlyTheDatabaseCovers()
    requires Valid(TWICE_SUPERSEDED)
    ensures Covered(DatabaseView, TWICE_SUPERSEDED, 11) && !Covered(CommandView, TWICE_SUPERSEDED, 11)
  {
    var db := TWICE_SUPERSEDED;
    assert Target(db, 11) == 10 && BothKnown(db, 11, 10) == 1;
    assert Replaces(DatabaseView, db, 12, 10, 1);
    assert !Replaces(CommandView, db, 10, 10, 1) && !Replaces(CommandView, db, 12, 10, 1);
  }

  lemma OwnRowsBefore()
    ensures forall id :: OwnStands(TWICE_SUPERSEDED, 1, id, NOW) <==> id == 11
  {
    var db := TWICE_SUPERSEDED;
    assert Replaces(CommandView, db, 11, 10, 1);
  }

  lemma OwnRowsAfterClearing()
    ensures forall id :: OwnStands(LinkDropped(TWICE_SUPERSEDED, 11), 1, id, NOW) <==> id == 10 || id == 11
  {
  }

  /** Clearing the link of row 11 turns the command's answer for object 1, as of an instant
      already recorded, from row 11 into a conflict; the database's view keeps its answers,
      since row 12 of the other object still covers. */
  lemma ClearedLinkChangesCommandAnswer()
    ensures var db := TWICE_SUPERSEDED;
      && Valid(db) && Covered(DatabaseView, db, 11) && !Covered(CommandView, db, 11)
      && CommandAnswer(db, 1, NOW) == Found(db.assertions[11])
      && CommandAnswer(LinkDropped(db, 11), 1, NOW) == Ambiguous
  {
    var db, after := TWICE_SUPERSEDED, LinkDropped(TWICE_SUPERSEDED, 11);
    TwiceSupersededIsValid();
    OnlyTheDatabaseCovers();
    OwnRowsBefore();
    CommandAnswerById(db, 1, NOW);
    assert OwnStands(db, 1, 11, NOW);
    AnyLinkCanBeDropped(db, 11);
    OwnRowsAfterClearing();
    CommandAnswerById(after, 1, NOW);
    assert OwnStands(after, 1, 10, NOW) && OwnStands(after, 1, 11, NOW);
  }

  lemma ForeignRows()
    requires Valid(FOREIGN_ONLY)
    ensures forall id :: OwnStands(FOREIGN_ONLY, 1, id, NOW) <==> id == 10
    ensures forall id :: !StateRowVisible(FOREIGN_ONLY, 1, id, NOW)
  {
    var db := FOREIGN_ONLY;
    assert db.assertions[12].supersedes == Some(10) && KnownBy(db.assertions[12], 1);
    assert HasSuccessor(db, 10, 1);
  }

  lemma ForeignLinkSplits()
    requires Valid(FOREIGN_ONLY)
    ensures AttachmentObject(FOREIGN_ONLY, 1) && !ForeignLinksCovered(FOREIGN_ONLY, 1)
  {
    var db := FOREIGN_ONLY;
    assert db.assertions[12].supersedes == Some(10) && db.assertions[12].objectId == 2;
    assert !Replaced(CommandView, db, 10, BothKnown(db, 12, 10));
  }

  /** A row of object 2 supersedes the only row of object 1: the command still finds that row,
      the database's view finds none. */
  lemma ForeignSupersessionSplitsViews()
    ensures var db := FOREIGN_ONLY;
      && Valid(db) && AttachmentObject(db, 1) && !ForeignLinksCovered(db, 1)
      && CommandAnswer(db, 1, NOW) == Found(db.assertions[10])
      && DatabaseAnswer(db, 1, NOW) == NoState
  {
    ForeignOnlyIsValid();
    ForeignRows();
    ForeignLinkSplits();
    CommandAnswerById(FOREIGN_ONLY, 1, NOW);
    assert OwnStands(FOREIGN_ONLY, 1, 10, NOW);
  }

  lemma RemovedForeign()
    ensures var after := Removed(FOREIGN_ONLY, 2);
      && after.assertions == map[10 := Row(10, 1, None, 0)]
      && after.states == map[10 := true]
      && DatabaseAnswer(after, 1, NOW) == State(10, true)
  {
    var db, after := FOREIGN_ONLY, Removed(FOREIGN_ONLY, 2);
    assert Victims(db, 2) == {12};
    assert after.assertions.Keys == {10} && after.states.Keys == {10};
    assert StateRowVisible(after, 1, 10, NOW);
    assert forall id :: StateRowVisible(after, 1, id, NOW) ==> id == 10;
  }

  lemma ForeignLinkIsUncovered()
    requires Valid(FOREIGN_ONLY)
    ensures !ReadableLinksCovered(FOREIGN_ONLY, 2)
  {
    var db := FOREIGN_ONLY;
    assert db.assertions[12].objectId == 2 && db.assertions[12].supersedes == Some(10) && 10 in db.assertions;
    assert !CoveredOutside(db, 2, 12, 10);
    assert Readable(db, 10) && !RowCovered(db, 2, 10);
  }

  /** Unregistering object 2 brings the row of object 1 back into the database's view. */
  lemma UncoveredRemovalChangesDatabaseAnswer()
    ensures var db := FOREIGN_ONLY;
      && Valid(db) && !ReadableLinksCovered(db, 2)
      && DatabaseAnswer(db, 1, NOW) == NoState
      && DatabaseAnswer(Removed(db, 2), 1, NOW) == State(10, true)
  {
    ForeignSupersessionSplitsViews();
    RemovedForeign();
    ForeignLinkIsUncovered();
  }
}
