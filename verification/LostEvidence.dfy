/**
  Evidence that is lost: a supersession link that is cleared, a row that is deleted.

  The append-only trigger lets both happen.  This says, for either view, which rows then stand
  that did not stand before, and exactly when the answers change.
 */
module LostEvidence {
  import opened Prelude
  import opened TemporalAssertions
  import opened AssertionStore
  import opened AsOf

  // ---------- what a link holds back ----------

  ghost predicate Links(db: Db, source: Uuid) {
    source in db.assertions && db.assertions[source].supersedes.Some?
  }

  function Target(db: Db, source: Uuid): (target: Uuid)
    requires Valid(db) && Links(db, source)
    ensures target in db.assertions
  {
    db.assertions[source].supersedes.value
  }

  /** Some other row that counts has replaced the target by then. */
  ghost predicate ReplacedByAnother(v: View, db: Db, source: Uuid, known: Instant)
    requires Valid(db) && Links(db, source)
  {
    exists t :: t in db.assertions && t != source && Replaces(v, db, t, Target(db, source), known)
  }

  /** At the pair it is the link alone that keeps its target from standing. */
  ghost predicate Exposed(v: View, db: Db, source: Uuid, pair: TimePair)
    requires Valid(db) && Links(db, source)
  {
    && Replaces(v, db, source, Target(db, source), pair.knownAt)
    && IsVisible(db.assertions[Target(db, source)], pair)
    && !ReplacedByAnother(v, db, source, pair.knownAt)
  }

  /** The link does not count in the view, or another row replaces the target by the time both
      ends of the link are known. */
  ghost predicate Covered(v: View, db: Db, source: Uuid)
    requires Valid(db) && Links(db, source)
  {
    || !Counts(v, db, source, Target(db, source))
    || ReplacedByAnother(v, db, source, BothKnown(db, source, Target(db, source)))
  }

  lemma ReplacementStays(v: View, db: Db, source: Uuid, known: Instant, later: Instant)
    requires Valid(db) && Links(db, source) && known <= later
    ensures ReplacedByAnother(v, db, source, known) ==> ReplacedByAnother(v, db, source, later)
  {
    if t :| t in db.assertions && t != source && Replaces(v, db, t, Target(db, source), known) {
      assert Replaces(v, db, t, Target(db, source), later);
    }
  }

  /** A link that is not covered holds its target back at some pair; a covered one at none. */
  lemma NeverExposedIffCovered(v: View, db: Db, source: Uuid)
    requires Valid(db) && Links(db, source)
    ensures (forall pair :: !Exposed(v, db, source, pair)) <==> Covered(v, db, source)
  {
    var target := Target(db, source);
    var first := TimePair(db.assertions[target].effectiveFrom.value, BothKnown(db, source, target));
    if !Covered(v, db, source) {
      assert Exposed(v, db, source, first);
    }
    forall pair ensures Covered(v, db, source) ==> !Exposed(v, db, source, pair) {
      if first.knownAt <= pair.knownAt { ReplacementStays(v, db, source, first.knownAt, pair.knownAt); }
    }
  }

  // ---------- clearing a link ----------

  function LinkDropped(db: Db, source: Uuid): Db
    requires source in db.assertions
  {
    db.(assertions := db.assertions[source := db.assertions[source].(supersedes := None)])
  }

  /** The trigger accepts the clearing of any link. */
  lemma AnyLinkCanBeDropped(db: Db, source: Uuid)
    requires Valid(db) && source in db.assertions
    ensures Apply(db, UpdateAssertion(source, db.assertions[source].(supersedes := None))) == LinkDropped(db, source)
    ensures Valid(LinkDropped(db, source))
  {
    UpdateKeepsValid(db, source, db.assertions[source].(supersedes := None));
  }

  lemma ReplacedAfterDrop(v: View, db: Db, source: Uuid, id: Uuid, known: Instant)
    requires Valid(db) && Links(db, source) && id in db.assertions
    ensures Replaced(v, LinkDropped(db, source), id, known) <==>
      if id == Target(db, source) then ReplacedByAnother(v, db, source, known) else Replaced(v, db, id, known)
  {
    var after := LinkDropped(db, source);
    forall k | k in db.assertions
      ensures Replaces(v, after, k, id, known) <==> k != source && Replaces(v, db, k, id, known)
    {
    }
  }

  /** Exactly the target comes to stand, and exactly where the link alone held it back. */
  lemma DropExposesTarget(v: View, db: Db, source: Uuid, id: Uuid, pair: TimePair)
    requires Valid(db) && Links(db, source)
    ensures Stands(v, LinkDropped(db, source), id, pair) <==>
      Stands(v, db, id, pair) || (id == Target(db, source) && Exposed(v, db, source, pair))
    ensures Exposed(v, db, source, pair) ==> !Stands(v, db, Target(db, source), pair)
  {
    if id in db.assertions {
      ReplacedAfterDrop(v, db, source, id, pair.knownAt);
      TargetIsReplaced(v, db, source, pair.knownAt);
    }
  }

  lemma TargetIsReplaced(v: View, db: Db, source: Uuid, known: Instant)
    requires Valid(db) && Links(db, source)
    ensures Replaced(v, db, Target(db, source), known) <==>
      Replaces(v, db, source, Target(db, source), known) || ReplacedByAnother(v, db, source, known)
  {
  }

  /** In either view every row stands at the same pairs as before exactly when another row
      covers for the link. */
  lemma DroppedLinkIsHarmlessIff(v: View, db: Db, source: Uuid)
    requires Valid(db) && Links(db, source)
    ensures (forall id, pair :: Stands(v, LinkDropped(db, source), id, pair) <==> Stands(v, db, id, pair))
      <==> Covered(v, db, source)
  {
    var after, target := LinkDropped(db, source), Target(db, source);
    forall id, pair ensures Stands(v, after, id, pair) <==>
      Stands(v, db, id, pair) || (id == target && Exposed(v, db, source, pair))
    {
      DropExposesTarget(v, db, source, id, pair);
    }
    forall pair ensures Exposed(v, db, source, pair) ==> !Stands(v, db, target, pair) {
      DropExposesTarget(v, db, source, target, pair);
    }
    NeverExposedIffCovered(v, db, source);
  }

  // ---------- the command's answers ----------

  /** The answer with the link cleared in the row, should that be the row. */
  function Relinked(r: Resolution, source: Uuid): Resolution {
    if r.Found? && r.row.id == source then Found(r.row.(supersedes := None)) else r
  }

  /** Bringing the target to stand changes what was answered: something else stood, or nothing
      did and the target is no deletion. */
  ghost predicate ExposureTells(db: Db, o: Uuid, target: Uuid, pair: TimePair)
    requires target in db.assertions
  {
    && !CommandAnswer(db, o, pair).Ambiguous?
    && (db.assertions[target].kind != Deletion || exists id :: OwnStands(db, o, id, pair))
  }

  lemma OwnRowsAfterDrop(db: Db, source: Uuid, o: Uuid, id: Uuid, pair: TimePair)
    requires Valid(db) && Links(db, source)
    ensures OwnStands(LinkDropped(db, source), o, id, pair) <==>
      || OwnStands(db, o, id, pair)
      || (id == Target(db, source) && db.assertions[id].objectId == o && Exposed(CommandView, db, source, pair))
  {
    DropExposesTarget(CommandView, db, source, id, pair);
  }

  /** Where nothing is exposed for the object, the answer stays. */
  lemma UnexposedKeepsCommandAnswer(db: Db, source: Uuid, o: Uuid, pair: TimePair)
    requires Valid(db) && Links(db, source)
    requires db.assertions[Target(db, source)].objectId != o || !Exposed(CommandView, db, source, pair)
    ensures CommandAnswer(LinkDropped(db, source), o, pair) == Relinked(CommandAnswer(db, o, pair), source)
  {
    AnyLinkCanBeDropped(db, source);
    var after := LinkDropped(db, source);
    forall id ensures OwnStands(after, o, id, pair) <==> OwnStands(db, o, id, pair) {
      OwnRowsAfterDrop(db, source, o, id, pair);
    }
    SameStandersSameAnswer(db, after, o, pair);
    CommandAnswerById(db, o, pair);
  }

  /** Where the target is exposed, the new answer is a conflict beside another row, and
      otherwise what the target says. */
  lemma ExposedCommandAnswer(db: Db, source: Uuid, pair: TimePair)
    requires Valid(db) && Links(db, source) && Exposed(CommandView, db, source, pair)
    ensures var target := Target(db, source);
      var o, after := db.assertions[target].objectId, LinkDropped(db, source);
      CommandAnswer(after, o, pair) ==
        if exists id :: OwnStands(db, o, id, pair) then Ambiguous
        else if db.assertions[target].kind == Deletion then Absent else Found(after.assertions[target])
  {
    AnyLinkCanBeDropped(db, source);
    var target, after := Target(db, source), LinkDropped(db, source);
    var o := db.assertions[target].objectId;
    forall id ensures OwnStands(after, o, id, pair) <==> OwnStands(db, o, id, pair) || id == target {
      OwnRowsAfterDrop(db, source, o, id, pair);
    }
    DropExposesTarget(CommandView, db, source, target, pair);
    CommandAnswerById(after, o, pair);
    if id :| OwnStands(db, o, id, pair) {
      assert id != target && OwnStands(after, o, id, pair) && OwnStands(after, o, target, pair);
    } else {
      assert OwnStands(after, o, target, pair);
    }
  }

  /** The command's answer for an object changes at a pair exactly when the link alone held one
      of the object's rows back there and that row then tells something new. */
  lemma DroppedLinkChangesCommandAnswerIff(db: Db, source: Uuid, o: Uuid, pair: TimePair)
    requires Valid(db) && Links(db, source)
    ensures var target := Target(db, source);
      CommandAnswer(LinkDropped(db, source), o, pair) != Relinked(CommandAnswer(db, o, pair), source) <==>
        && db.assertions[target].objectId == o && Exposed(CommandView, db, source, pair)
        && ExposureTells(db, o, target, pair)
  {
    var target := Target(db, source);
    CommandAnswerById(db, o, pair);
    if db.assertions[target].objectId == o && Exposed(CommandView, db, source, pair) {
      ExposedCommandAnswer(db, source, pair);
      DropExposesTarget(CommandView, db, source, target, pair);
    } else {
      UnexposedKeepsCommandAnswer(db, source, o, pair);
    }
  }

  /** A covered link can be cleared without changing any answer of any command. */
  lemma CoveredDropKeepsCommandAnswers(db: Db, source: Uuid, o: Uuid, pair: TimePair)
    requires Valid(db) && Links(db, source) && Covered(CommandView, db, source)
    ensures CommandAnswer(LinkDropped(db, source), o, pair) == Relinked(CommandAnswer(db, o, pair), source)
  {
    NeverExposedIffCovered(CommandView, db, source);
    UnexposedKeepsCommandAnswer(db, source, o, pair);
  }

  // ---------- the database's answers ----------

  lemma StateRowsAfterDrop(db: Db, source: Uuid, o: Uuid, id: Uuid, pair: TimePair)
    requires Valid(db) && Links(db, source)
    ensures StateRowVisible(LinkDropped(db, source), o, id, pair) <==>
      || StateRowVisible(db, o, id, pair)
      || (id == Target(db, source) && db.assertions[id].objectId == o && Readable(db, id)
          && Exposed(DatabaseView, db, source, pair))
    ensures Exposed(DatabaseView, db, source, pair) ==> !StateRowVisible(db, o, Target(db, source), pair)
  {
    DropExposesTarget(DatabaseView, db, source, id, pair);
    AcceptedStands(db, id, pair);
    AcceptedStands(db, Target(db, source), pair);
    AcceptedStands(LinkDropped(db, source), id, pair);
  }

  /** The as-of answer for an object changes at a pair exactly when the link alone held one of
      the object's readable rows back there and the answer was no conflict already. */
  lemma DroppedLinkChangesDatabaseAnswerIff(db: Db, source: Uuid, o: Uuid, pair: TimePair)
    requires Valid(db) && Links(db, source)
    ensures var target := Target(db, source);
      DatabaseAnswer(LinkDropped(db, source), o, pair) != DatabaseAnswer(db, o, pair) <==>
        && db.assertions[target].objectId == o && Readable(db, target) && Exposed(DatabaseView, db, source, pair)
        && !DatabaseAnswer(db, o, pair).Conflicting?
  {
    var after, target := LinkDropped(db, source), Target(db, source);
    forall id ensures StateRowVisible(after, o, id, pair) <==>
      || StateRowVisible(db, o, id, pair)
      || (id == target && db.assertions[id].objectId == o && Readable(db, id) && Exposed(DatabaseView, db, source, pair))
    {
      StateRowsAfterDrop(db, source, o, id, pair);
    }
    StateRowsAfterDrop(db, source, o, target, pair);
    var was := DatabaseAnswer(db, o, pair);
    if was.Conflicting? {
      var i, j :| StateRowVisible(db, o, i, pair) && StateRowVisible(db, o, j, pair) && i != j;
      assert StateRowVisible(after, o, i, pair) && StateRowVisible(after, o, j, pair);
    }
  }

  /** Over all objects and pairs the readable rows are visible as before exactly when the target
      is not readable or another row of any object covers for the link; then no as-of answer
      changes. */
  lemma DroppedLinkIsHarmlessForDatabaseIff(db: Db, source: Uuid)
    requires Valid(db) && Links(db, source)
    ensures (forall o, id, pair :: StateRowVisible(LinkDropped(db, source), o, id, pair) <==> StateRowVisible(db, o, id, pair))
      <==> !Readable(db, Target(db, source)) || Covered(DatabaseView, db, source)
    ensures !Readable(db, Target(db, source)) || Covered(DatabaseView, db, source) ==>
      forall o, pair :: DatabaseAnswer(LinkDropped(db, source), o, pair) == DatabaseAnswer(db, o, pair)
  {
    var after, target := LinkDropped(db, source), Target(db, source);
    NeverExposedIffCovered(DatabaseView, db, source);
    forall o, id, pair ensures StateRowVisible(after, o, id, pair) <==>
      || StateRowVisible(db, o, id, pair)
      || (id == target && db.assertions[id].objectId == o && Readable(db, id) && Exposed(DatabaseView, db, source, pair))
    {
      StateRowsAfterDrop(db, source, o, id, pair);
    }
    if pair :| Exposed(DatabaseView, db, source, pair) {
      StateRowsAfterDrop(db, source, db.assertions[target].objectId, target, pair);
    }
    forall o, pair | !Readable(db, target) || Covered(DatabaseView, db, source)
      ensures DatabaseAnswer(after, o, pair) == DatabaseAnswer(db, o, pair)
    {
      DroppedLinkChangesDatabaseAnswerIff(db, source, o, pair);
    }
  }

  // ---------- deleting a row ----------

  lemma ReplacedAfterDelete(v: View, db: Db, gone: Uuid, id: Uuid, known: Instant)
    requires Valid(db) && gone in db.assertions && id in db.assertions && id != gone
    ensures Replaced(v, RowDeleted(db, gone), id, known) <==>
      exists t :: t in db.assertions && t != gone && Replaces(v, db, t, id, known)
  {
    var after := RowDeleted(db, gone);
    forall k | k in db.assertions && k != gone
      ensures Replaces(v, after, k, id, known) <==> Replaces(v, db, k, id, known)
    {
    }
  }

  /** The other rows: exactly the target of the deleted row's link comes to stand, and exactly
      where that link alone held it back. */
  lemma DeleteExposesTarget(v: View, db: Db, gone: Uuid, id: Uuid, pair: TimePair)
    requires Valid(db) && gone in db.assertions && id != gone
    ensures Stands(v, RowDeleted(db, gone), id, pair) <==>
      || Stands(v, db, id, pair)
      || (Links(db, gone) && id == Target(db, gone) && Exposed(v, db, gone, pair))
  {
    if id in db.assertions {
      ReplacedAfterDelete(v, db, gone, id, pair.knownAt);
      if Links(db, gone) && id == Target(db, gone) {
        TargetIsReplaced(v, db, gone, pair.knownAt);
      } else {
        assert !Replaces(v, db, gone, id, pair.knownAt);
      }
    }
  }

  /** The row never stood: it was replaced as soon as it was known. */
  ghost predicate NeverStood(v: View, db: Db, id: Uuid)
    requires Valid(db) && id in db.assertions
  {
    Replaced(v, db, id, db.assertions[id].recordedAt.value)
  }

  lemma StoodAtFirst(v: View, db: Db, id: Uuid)
    requires Valid(db) && id in db.assertions
    ensures (forall pair :: !Stands(v, db, id, pair)) <==> NeverStood(v, db, id)
  {
    var first := TimePair(db.assertions[id].effectiveFrom.value, db.assertions[id].recordedAt.value);
    if !NeverStood(v, db, id) {
      assert Stands(v, db, id, first);
    }
    forall pair ensures NeverStood(v, db, id) ==> !Stands(v, db, id, pair) {
      if k :| k in db.assertions && Replaces(v, db, k, id, first.knownAt) {
        assert first.knownAt <= pair.knownAt ==> Replaces(v, db, k, id, pair.knownAt);
      }
    }
  }

  /** In either view a delete leaves every row standing where it stood exactly when the deleted
      row never stood itself and its link, if any, is covered by another row. */
  lemma DeletedRowIsHarmlessIff(v: View, db: Db, gone: Uuid)
    requires Valid(db) && gone in db.assertions
    ensures (forall id, pair :: Stands(v, RowDeleted(db, gone), id, pair) <==> Stands(v, db, id, pair))
      <==> NeverStood(v, db, gone) && (Links(db, gone) ==> Covered(v, db, gone))
  {
    var after := RowDeleted(db, gone);
    forall id, pair ensures Stands(v, after, id, pair) <==>
      id != gone && (Stands(v, db, id, pair)
                     || (Links(db, gone) && id == Target(db, gone) && Exposed(v, db, gone, pair)))
    {
      if id != gone { DeleteExposesTarget(v, db, gone, id, pair); }
    }
    StoodAtFirst(v, db, gone);
    if Links(db, gone) {
      NeverExposedIffCovered(v, db, gone);
      forall pair ensures Exposed(v, db, gone, pair) ==> !Stands(v, db, Target(db, gone), pair) {
        TargetIsReplaced(v, db, gone, pair.knownAt);
      }
    }
  }

  lemma OwnRowsAfterHarmlessDelete(db: Db, gone: Uuid, o: Uuid, id: Uuid, pair: TimePair)
    requires Valid(db) && gone in db.assertions
    requires NeverStood(CommandView, db, gone) && (Links(db, gone) ==> Covered(CommandView, db, gone))
    ensures OwnStands(RowDeleted(db, gone), o, id, pair) <==> OwnStands(db, o, id, pair)
  {
    DeletedRowIsHarmlessIff(CommandView, db, gone);
    assert Stands(CommandView, RowDeleted(db, gone), id, pair) <==> Stands(CommandView, db, id, pair);
  }

  /** Such a delete changes no answer of a command, up to links to the deleted row. */
  lemma HarmlessDeleteKeepsCommandAnswer(db: Db, gone: Uuid, o: Uuid, pair: TimePair)
    requires Valid(db) && gone in db.assertions
    requires NeverStood(CommandView, db, gone) && (Links(db, gone) ==> Covered(CommandView, db, gone))
    ensures var was, now := CommandAnswer(db, o, pair), CommandAnswer(RowDeleted(db, gone), o, pair);
      match was
      case Ambiguous => now.Ambiguous?
      case Absent => now.Absent?
      case Found(row) => now == Found(Unlinked(row, {gone}))
  {
    var after := RowDeleted(db, gone);
    DeleteKeepsValid(db, gone);
    forall id ensures OwnStands(after, o, id, pair) <==> OwnStands(db, o, id, pair) {
      OwnRowsAfterHarmlessDelete(db, gone, o, id, pair);
    }
    SameStandersSameAnswer(db, after, o, pair);
    CommandAnswerById(db, o, pair);
  }

  /** And, under the same condition on the database's view, no as-of answer. */
  lemma HarmlessDeleteKeepsDatabaseAnswer(db: Db, gone: Uuid, o: Uuid, pair: TimePair)
    requires Valid(db) && gone in db.assertions
    requires NeverStood(DatabaseView, db, gone) && (Links(db, gone) ==> Covered(DatabaseView, db, gone))
    ensures DatabaseAnswer(RowDeleted(db, gone), o, pair) == DatabaseAnswer(db, o, pair)
  {
    var after := RowDeleted(db, gone);
    DeletedRowIsHarmlessIff(DatabaseView, db, gone);
    forall id ensures StateRowVisible(after, o, id, pair) <==> StateRowVisible(db, o, id, pair) {
      assert Stands(DatabaseView, after, id, pair) <==> Stands(DatabaseView, db, id, pair);
      AcceptedStands(db, id, pair);
      AcceptedStands(after, id, pair);
    }
  }

  /** Deleting a payload hides just its own row from the as-of function, at every pair. */
  lemma DeletedStateHidesItsRow(db: Db, gone: Uuid, o: Uuid, id: Uuid, pair: TimePair)
    requires Valid(db)
    ensures var after := Apply(db, DeleteState(gone));
      && (StateRowVisible(after, o, id, pair) <==> id != gone && StateRowVisible(db, o, id, pair))
      && CommandAnswer(after, o, pair) == CommandAnswer(db, o, pair)
  {
    var after := Apply(db, DeleteState(gone));
    assert AcceptedAt(after, id, pair) <==> AcceptedAt(db, id, pair);
    assert History(after, o) == History(db, o);
  }
}
