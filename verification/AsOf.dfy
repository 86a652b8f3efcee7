/**
  The two as-of views over the assertion tables and what keeps them stable.

  The retrieval commands resolve one object from its own rows.  The database resolves an
  attachment's activity with a query over all rows.  Both answer per (act date, known time).
 */
module AsOf {
  import opened Prelude
  import opened TemporalAssertions
  import opened AssertionStore

  // ---------- the command's view ----------

  /** All rows that speak about one object. */
  ghost function History(db: Db, o: Uuid): multiset<Assertion> {
    multiset(set k | k in db.assertions && db.assertions[k].objectId == o :: db.assertions[k])
  }

  ghost function CommandAnswer(db: Db, o: Uuid, pair: TimePair): Resolution {
    Resolve(History(db, o), pair)
  }

  lemma InHistory(db: Db, o: Uuid, a: Assertion)
    requires Valid(db)
    ensures a in History(db, o) <==> a.id in db.assertions && db.assertions[a.id] == a && a.objectId == o
    ensures History(db, o)[a] <= 1
  {
    var rows := set k | k in db.assertions && db.assertions[k].objectId == o :: db.assertions[k];
    assert a in rows <==> a in History(db, o);
    if a.id in db.assertions && db.assertions[a.id] == a && a.objectId == o {
      assert a in rows;
    }
  }

  // ---------- the database's view ----------

  predicate HasSuccessor(db: Db, id: Uuid, known: Instant) {
    exists k :: k in db.assertions && db.assertions[k].supersedes == Some(id) && KnownBy(db.assertions[k], known)
  }

  /** Visible, and no row of any object known by then names it as superseded. */
  predicate AcceptedAt(db: Db, id: Uuid, pair: TimePair) {
    id in db.assertions && IsVisible(db.assertions[id], pair) && !HasSuccessor(db, id, pair.knownAt)
  }

  predicate StateRowVisible(db: Db, o: Uuid, id: Uuid, pair: TimePair) {
    && AcceptedAt(db, id, pair) && id in db.states
    && db.assertions[id].objectId == o && db.assertions[id].family == ATTACHMENT_FAMILY
  }

  /** The row can be read by the as-of function at all: an attachment row with a payload. */
  predicate Readable(db: Db, id: Uuid) {
    id in db.assertions && id in db.states && db.assertions[id].family == ATTACHMENT_FAMILY
  }

  function VisibleStates(db: Db, o: Uuid, pair: TimePair): set<Uuid> {
    set id | id in db.assertions && StateRowVisible(db, o, id, pair)
  }

  datatype StateAnswer = Conflicting | NoState | State(id: Uuid, active: bool)

  /** Two visible rows are a conflict, one is the answer, none is no answer. */
  ghost function DatabaseAnswer(db: Db, o: Uuid, pair: TimePair): (r: StateAnswer)
    ensures r.Conflicting? <==>
      exists i, j :: StateRowVisible(db, o, i, pair) && StateRowVisible(db, o, j, pair) && i != j
    ensures r.NoState? <==> forall i :: !StateRowVisible(db, o, i, pair)
    ensures r.State? ==> StateRowVisible(db, o, r.id, pair) && r.active == db.states[r.id]
  {
    if exists i, j :: StateRowVisible(db, o, i, pair) && StateRowVisible(db, o, j, pair) && i != j then Conflicting
    else if exists i :: StateRowVisible(db, o, i, pair) then
      var i :| StateRowVisible(db, o, i, pair);
      State(i, db.states[i])
    else NoState
  }

  method StateAsOf(db: Db, o: Uuid, pair: TimePair) returns (r: StateAnswer)
    ensures r == DatabaseAnswer(db, o, pair)
  {
    var visible := VisibleStates(db, o, pair);
    var visibleCount := |visible|;
    if visibleCount > 1 {
      ghost var i := AnyMember(visible);
      ghost var j := AnyMember(visible - {i});
      assert StateRowVisible(db, o, i, pair) && StateRowVisible(db, o, j, pair) && i != j;
      return Conflicting;
    }
    if visible == {} {
      assert forall i :: StateRowVisible(db, o, i, pair) ==> i in visible;
      return NoState;
    }
    ghost var w := AnyMember(visible);
    var id :| id in visible;
    assert |visible - {id}| == 0;
    assert forall i :: StateRowVisible(db, o, i, pair) ==> i in visible && (i in visible - {id} || i == id);
    return State(id, db.states[id]);
  }

  // ---------- the two views, row by row ----------

  datatype View = CommandView | DatabaseView

  /** Which row may supersede which: for a command one of the same object, for the database any. */
  predicate Counts(v: View, db: Db, k: Uuid, j: Uuid)
    requires k in db.assertions && j in db.assertions
  {
    v == DatabaseView || db.assertions[k].objectId == db.assertions[j].objectId
  }

  predicate Replaces(v: View, db: Db, k: Uuid, j: Uuid, known: Instant)
    requires k in db.assertions && j in db.assertions
  {
    db.assertions[k].supersedes == Some(j) && KnownBy(db.assertions[k], known) && Counts(v, db, k, j)
  }

  predicate Replaced(v: View, db: Db, j: Uuid, known: Instant)
    requires j in db.assertions
  {
    exists k :: k in db.assertions && Replaces(v, db, k, j, known)
  }

  /** The row is in force and known, and nothing that counts and is known replaces it. */
  predicate Stands(v: View, db: Db, id: Uuid, pair: TimePair) {
    id in db.assertions && IsVisible(db.assertions[id], pair) && !Replaced(v, db, id, pair.knownAt)
  }

  /** What the command sees standing for an object. */
  predicate OwnStands(db: Db, o: Uuid, id: Uuid, pair: TimePair) {
    Stands(CommandView, db, id, pair) && db.assertions[id].objectId == o
  }

  lemma AcceptedStands(db: Db, id: Uuid, pair: TimePair)
    ensures AcceptedAt(db, id, pair) <==> Stands(DatabaseView, db, id, pair)
  {
    if id in db.assertions {
      if k :| k in db.assertions && db.assertions[k].supersedes == Some(id) && KnownBy(db.assertions[k], pair.knownAt) {
        assert Replaces(DatabaseView, db, k, id, pair.knownAt);
      }
    }
  }

  lemma SupersededById(db: Db, o: Uuid, id: Uuid, known: Instant)
    requires Valid(db) && id in db.assertions && db.assertions[id].objectId == o
    ensures Superseded(History(db, o), id, known) <==> Replaced(CommandView, db, id, known)
  {
    var h := History(db, o);
    if Superseded(h, id, known) {
      var s :| s in h && s.supersedes == Some(id) && KnownBy(s, known);
      InHistory(db, o, s);
      assert Replaces(CommandView, db, s.id, id, known);
    }
    if Replaced(CommandView, db, id, known) {
      var k :| k in db.assertions && Replaces(CommandView, db, k, id, known);
      InHistory(db, o, db.assertions[k]);
      assert db.assertions[k] in h;
    }
  }

  /** The resolver's survivors are the rows that stand for the object. */
  lemma SurvivesById(db: Db, o: Uuid, a: Assertion, pair: TimePair)
    requires Valid(db)
    ensures Survives(History(db, o), a, pair) <==>
      a.id in db.assertions && db.assertions[a.id] == a && OwnStands(db, o, a.id, pair)
    ensures History(db, o)[a] <= 1
  {
    InHistory(db, o, a);
    if a in History(db, o) {
      SupersededById(db, o, a.id, pair.knownAt);
    }
  }

  /** Two standing rows are a conflict, a lone one is the answer unless it deletes. */
  lemma CommandAnswerById(db: Db, o: Uuid, pair: TimePair)
    requires Valid(db)
    ensures CommandAnswer(db, o, pair).Ambiguous? <==>
      exists i, j :: OwnStands(db, o, i, pair) && OwnStands(db, o, j, pair) && i != j
    ensures forall i :: OwnStands(db, o, i, pair) && !CommandAnswer(db, o, pair).Ambiguous? ==>
      CommandAnswer(db, o, pair) ==
        if db.assertions[i].kind == Deletion then Absent else Found(db.assertions[i])
    ensures CommandAnswer(db, o, pair).Found? ==>
      var row := CommandAnswer(db, o, pair).row; OwnStands(db, o, row.id, pair) && db.assertions[row.id] == row
  {
    var h := History(db, o);
    forall a ensures
      && (Survives(h, a, pair) <==>
        a.id in db.assertions && db.assertions[a.id] == a && OwnStands(db, o, a.id, pair))
      && h[a] <= 1
    {
      SurvivesById(db, o, a, pair);
    }
    assert forall i :: OwnStands(db, o, i, pair) ==> Survives(h, db.assertions[i], pair);
    if i, j :| OwnStands(db, o, i, pair) && OwnStands(db, o, j, pair) && i != j {
      assert Survives(h, db.assertions[i], pair) && Survives(h, db.assertions[j], pair);
      assert Conflict(h, pair);
    }
    if Conflict(h, pair) {
      var a, b :| Survives(h, a, pair) && Survives(h, b, pair) && (a != b || h[a] > 1);
      assert OwnStands(db, o, a.id, pair) && OwnStands(db, o, b.id, pair) && a.id != b.id;
    } else {
      forall i | OwnStands(db, o, i, pair) && db.assertions[i].kind != Deletion
        ensures CommandAnswer(db, o, pair) == Found(db.assertions[i])
      {
        SoleSurvivor(h, db.assertions[i], pair);
      }
    }
  }

  /** With the same rows standing, equal up to their links, a command answers the same. */
  lemma SameStandersSameAnswer(db: Db, after: Db, o: Uuid, pair: TimePair)
    requires Valid(db) && Valid(after)
    requires forall id :: OwnStands(after, o, id, pair) <==> OwnStands(db, o, id, pair)
    requires forall id :: OwnStands(db, o, id, pair) ==>
      id in after.assertions && after.assertions[id].kind == db.assertions[id].kind
    ensures var was, now := CommandAnswer(db, o, pair), CommandAnswer(after, o, pair);
      match was
      case Ambiguous => now.Ambiguous?
      case Absent => now.Absent?
      case Found(row) => row.id in after.assertions && now == Found(after.assertions[row.id])
  {
    CommandAnswerById(db, o, pair);
    CommandAnswerById(after, o, pair);
    var was, now := CommandAnswer(db, o, pair), CommandAnswer(after, o, pair);
    if was.Found? {
      assert OwnStands(after, o, was.row.id, pair);
    }
    if now.Found? {
      assert OwnStands(db, o, now.row.id, pair);
    }
  }

  // ---------- the two views agree ----------

  /** Every row about the object is an attachment assertion that carries a payload. */
  ghost predicate AttachmentObject(db: Db, o: Uuid) {
    forall k :: k in db.assertions && db.assertions[k].objectId == o ==>
      db.assertions[k].family == ATTACHMENT_FAMILY && k in db.states
  }

  function Later(s: Instant, t: Instant): Instant {
    if s < t then t else s
  }

  /** The time by which two rows are both known. */
  function BothKnown(db: Db, k: Uuid, j: Uuid): Instant
    requires Valid(db) && k in db.assertions && j in db.assertions
  {
    Later(db.assertions[k].recordedAt.value, db.assertions[j].recordedAt.value)
  }

  /** Wherever a row of another object supersedes one of the object's rows, the object has a
      row that supersedes it by the time both are known. */
  ghost predicate ForeignLinksCovered(db: Db, o: Uuid)
    requires Valid(db)
  {
    forall k, j | k in db.assertions && db.assertions[k].supersedes == Some(j) && db.assertions[k].objectId != o
                  && j in db.assertions && db.assertions[j].objectId == o ::
      Replaced(CommandView, db, j, BothKnown(db, k, j))
  }

  /** A row that supersedes one of the object's rows speaks about the object too. */
  ghost predicate LinksInside(db: Db, o: Uuid) {
    forall k, j | k in db.assertions && db.assertions[k].supersedes == Some(j)
                  && j in db.assertions && db.assertions[j].objectId == o :: db.assertions[k].objectId == o
  }

  lemma InsideLinksAreCovered(db: Db, o: Uuid)
    requires Valid(db) && LinksInside(db, o)
    ensures ForeignLinksCovered(db, o)
  {
  }

  /** Each view lets exactly the same rows of the object stand. */
  ghost predicate SameRows(db: Db, o: Uuid, pair: TimePair) {
    forall id :: OwnStands(db, o, id, pair) <==> StateRowVisible(db, o, id, pair)
  }

  lemma CoveredRowsAgree(db: Db, o: Uuid, id: Uuid, pair: TimePair)
    requires Valid(db) && AttachmentObject(db, o) && ForeignLinksCovered(db, o)
    ensures OwnStands(db, o, id, pair) <==> StateRowVisible(db, o, id, pair)
  {
    AcceptedStands(db, id, pair);
    if id in db.assertions && db.assertions[id].objectId == o && IsVisible(db.assertions[id], pair) {
      if k :| k in db.assertions && Replaces(CommandView, db, k, id, pair.knownAt) {
        assert Replaces(DatabaseView, db, k, id, pair.knownAt);
      }
      if k :| k in db.assertions && Replaces(DatabaseView, db, k, id, pair.knownAt) {
        if db.assertions[k].objectId == o {
          assert Replaces(CommandView, db, k, id, pair.knownAt);
        } else {
          var t :| t in db.assertions && Replaces(CommandView, db, t, id, BothKnown(db, k, id));
          assert Replaces(CommandView, db, t, id, pair.knownAt);
        }
      }
    }
  }

  lemma AgreeingRowsAreCovered(db: Db, o: Uuid, k: Uuid, j: Uuid)
    requires Valid(db) && AttachmentObject(db, o)
    requires k in db.assertions && db.assertions[k].supersedes == Some(j) && db.assertions[k].objectId != o
    requires j in db.assertions && db.assertions[j].objectId == o
    requires SameRows(db, o, TimePair(db.assertions[j].effectiveFrom.value, BothKnown(db, k, j)))
    ensures Replaced(CommandView, db, j, BothKnown(db, k, j))
  {
    var pair := TimePair(db.assertions[j].effectiveFrom.value, BothKnown(db, k, j));
    AcceptedStands(db, j, pair);
    assert Replaces(DatabaseView, db, k, j, pair.knownAt);
    assert !StateRowVisible(db, o, j, pair) && !OwnStands(db, o, j, pair);
  }

  /** At all pairs the views let the same rows stand exactly when the foreign links are covered. */
  lemma ViewsSeeSameRowsIff(db: Db, o: Uuid)
    requires Valid(db) && AttachmentObject(db, o)
    ensures (forall pair :: SameRows(db, o, pair)) <==> ForeignLinksCovered(db, o)
  {
    if ForeignLinksCovered(db, o) {
      forall pair, id ensures OwnStands(db, o, id, pair) <==> StateRowVisible(db, o, id, pair) {
        CoveredRowsAgree(db, o, id, pair);
      }
    }
    if forall pair :: SameRows(db, o, pair) {
      forall k, j | k in db.assertions && db.assertions[k].supersedes == Some(j) && db.assertions[k].objectId != o
                    && j in db.assertions && db.assertions[j].objectId == o
        ensures Replaced(CommandView, db, j, BothKnown(db, k, j))
      {
        AgreeingRowsAreCovered(db, o, k, j);
      }
    }
  }

  /** Where the views let the same rows stand, both refuse or neither does, and otherwise the
      command returns the database's row, hiding it if it deletes. */
  lemma SameRowsSameAnswers(db: Db, o: Uuid, pair: TimePair)
    requires Valid(db) && SameRows(db, o, pair)
    ensures CommandAnswer(db, o, pair).Ambiguous? <==> DatabaseAnswer(db, o, pair).Conflicting?
    ensures CommandAnswer(db, o, pair).Absent? <==>
      var d := DatabaseAnswer(db, o, pair); d.NoState? || (d.State? && db.assertions[d.id].kind == Deletion)
    ensures CommandAnswer(db, o, pair).Found? ==>
      var d := DatabaseAnswer(db, o, pair); d.State? && db.assertions[d.id] == CommandAnswer(db, o, pair).row
  {
    CommandAnswerById(db, o, pair);
    var c, d := CommandAnswer(db, o, pair), DatabaseAnswer(db, o, pair);
    if d.State? {
      assert OwnStands(db, o, d.id, pair);
    }
    if c.Found? {
      assert StateRowVisible(db, o, c.row.id, pair);
    }
  }

  /** Both views refuse the same pairs.  Otherwise the command returns the database's row,
      except that it hides a deletion, and the guard makes that row inactive. */
  lemma ViewsAgree(db: Db, o: Uuid, pair: TimePair)
    requires Valid(db) && AttachmentObject(db, o) && ForeignLinksCovered(db, o)
    ensures CommandAnswer(db, o, pair).Ambiguous? <==> DatabaseAnswer(db, o, pair).Conflicting?
    ensures CommandAnswer(db, o, pair).Absent? <==>
      var d := DatabaseAnswer(db, o, pair); d.NoState? || (d.State? && db.assertions[d.id].kind == Deletion)
    ensures CommandAnswer(db, o, pair).Found? ==>
      var d := DatabaseAnswer(db, o, pair); d.State? && db.assertions[d.id] == CommandAnswer(db, o, pair).row
    ensures var d := DatabaseAnswer(db, o, pair);
      d.State? && db.assertions[d.id].kind == Deletion ==> !d.active
  {
    ViewsSeeSameRowsIff(db, o);
    SameRowsSameAnswers(db, o, pair);
  }

  // ---------- recorded answers never change ----------

  /** The rows known by the clock, and their payloads, are the same in both databases. */
  ghost predicate SameKnown(db: Db, later: Db, clock: Instant) {
    && (forall k :: k in db.assertions && KnownBy(db.assertions[k], clock) ==>
      k in later.assertions && later.assertions[k] == db.assertions[k])
    && (forall k :: k in later.assertions && KnownBy(later.assertions[k], clock) ==>
      k in db.assertions && db.assertions[k] == later.assertions[k])
    && (forall k :: k in db.assertions && KnownBy(db.assertions[k], clock) ==>
      (k in db.states <==> k in later.states) && (k in db.states ==> db.states[k] == later.states[k]))
  }

  /** The row is in the table and known by the clock. */
  predicate OnRecord(db: Db, id: Uuid, clock: Instant) {
    id in db.assertions && KnownBy(db.assertions[id], clock)
  }

  /** Statements that leave what is known by the clock alone: registrations, inserts stamped
      after it, payloads of rows not known by it, any update that is refused or drops no known
      link, and deletes of rows and payloads that neither it nor a known link reaches. */
  ghost predicate Quiet(db: Db, s: Statement, clock: Instant) {
    match s
    case Register(_, _) => true
    case Unregister(_) => false
    case InsertAssertion(a) => !KnownBy(a, clock)
    case UpdateAssertion(id, a) =>
      OnRecord(db, id, clock) && Permitted(db.assertions[id], a) && db.assertions[id].supersedes.Some? ==>
        a.supersedes.Some?
    case DeleteAssertion(id) =>
      !OnRecord(db, id, clock)
      && forall k :: OnRecord(db, k, clock) ==> db.assertions[k].supersedes != Some(id)
    case InsertState(id, _) => !OnRecord(db, id, clock)
    case UpdateState(_, _, _) => true
    case DeleteState(id) => !OnRecord(db, id, clock)
  }

  ghost predicate QuietRun(db: Db, ss: seq<Statement>, clock: Instant)
    decreases |ss|
  {
    ss == [] || (Quiet(db, ss[0], clock) && QuietRun(Apply(db, ss[0]), ss[1..], clock))
  }

  lemma SameKnownSameCommandAnswer(db: Db, later: Db, clock: Instant, o: Uuid, pair: TimePair)
    requires Valid(db) && Valid(later) && SameKnown(db, later, clock) && pair.knownAt <= clock
    ensures CommandAnswer(later, o, pair) == CommandAnswer(db, o, pair)
  {
    var h, k := History(db, o), History(later, o);
    forall a: Assertion | KnownBy(a, pair.knownAt)
      ensures h[a] == k[a]
    {
      InHistory(db, o, a);
      InHistory(later, o, a);
      assert KnownBy(a, clock);
    }
    SameSuccessors(h, k, pair.knownAt);
    SameSuccessors(k, h, pair.knownAt);
    ResolveCongruence(h, k, pair);
  }

  lemma SameSuccessors(h: multiset<Assertion>, k: multiset<Assertion>, known: Instant)
    requires forall a: Assertion :: KnownBy(a, known) ==> h[a] == k[a]
    ensures forall id :: Superseded(h, id, known) ==> Superseded(k, id, known)
  {
  }

  lemma SameKnownSameVisibleStates(db: Db, later: Db, clock: Instant, o: Uuid, id: Uuid, pair: TimePair)
    requires SameKnown(db, later, clock) && pair.knownAt <= clock
    ensures StateRowVisible(db, o, id, pair) <==> StateRowVisible(later, o, id, pair)
    ensures StateRowVisible(db, o, id, pair) ==> db.states[id] == later.states[id]
  {
    assert HasSuccessor(db, id, pair.knownAt) <==> HasSuccessor(later, id, pair.knownAt);
  }

  lemma SameKnownSameDatabaseAnswer(db: Db, later: Db, clock: Instant, o: Uuid, pair: TimePair)
    requires SameKnown(db, later, clock) && pair.knownAt <= clock
    ensures DatabaseAnswer(later, o, pair) == DatabaseAnswer(db, o, pair)
  {
    forall id ensures StateRowVisible(db, o, id, pair) <==> StateRowVisible(later, o, id, pair)
    {
      SameKnownSameVisibleStates(db, later, clock, o, id, pair);
    }
    var d := DatabaseAnswer(db, o, pair);
    if d.State? {
      SameKnownSameVisibleStates(db, later, clock, o, d.id, pair);
    }
  }

  lemma QuietDeleteKeepsKnown(db: Db, id: Uuid, clock: Instant)
    requires Valid(db) && Quiet(db, DeleteAssertion(id), clock)
    ensures SameKnown(db, RowDeleted(db, id), clock)
  {
    var after := RowDeleted(db, id);
    forall k ensures k in after.assertions <==> k in db.assertions && k != id { }
    forall k | OnRecord(db, k, clock) ensures after.assertions[k] == db.assertions[k] { }
    forall k | k in after.assertions && KnownBy(after.assertions[k], clock) ensures OnRecord(db, k, clock) { }
  }

  lemma QuietUpdateKeepsKnown(db: Db, id: Uuid, a: Assertion, clock: Instant)
    requires Valid(db) && Quiet(db, UpdateAssertion(id, a), clock)
    ensures SameKnown(db, Apply(db, UpdateAssertion(id, a)), clock)
  {
    if id in db.assertions && Permitted(db.assertions[id], a) {
      assert KnownBy(a, clock) <==> KnownBy(db.assertions[id], clock);
    }
  }

  lemma QuietStepKeepsKnown(db: Db, s: Statement, clock: Instant)
    requires Valid(db) && Quiet(db, s, clock)
    ensures SameKnown(db, Apply(db, s), clock)
  {
    match s
    case DeleteAssertion(id) => if id in db.assertions { QuietDeleteKeepsKnown(db, id, clock); }
    case UpdateAssertion(id, a) => QuietUpdateKeepsKnown(db, id, a, clock);
    case _ =>
  }

  lemma SameKnownTransitive(a: Db, b: Db, c: Db, clock: Instant)
    requires SameKnown(a, b, clock) && SameKnown(b, c, clock)
    ensures SameKnown(a, c, clock)
  {
  }

  lemma {:induction false} QuietRunKeepsKnown(db: Db, ss: seq<Statement>, clock: Instant)
    requires Valid(db) && QuietRun(db, ss, clock)
    ensures Valid(Run(db, ss)) && SameKnown(db, Run(db, ss), clock)
    decreases |ss|
  {
    if ss != [] {
      var next := Apply(db, ss[0]);
      ApplyKeepsValid(db, ss[0]);
      QuietStepKeepsKnown(db, ss[0], clock);
      QuietRunKeepsKnown(next, ss[1..], clock);
      SameKnownTransitive(db, next, Run(db, ss), clock);
    }
  }

  /** Over every run of such statements, accepted or refused, each object's answer at every
      act date and every known time up to the clock stays what it was, in both views. */
  lemma RecordedAnswersNeverChange(db: Db, ss: seq<Statement>, clock: Instant, o: Uuid, pair: TimePair)
    requires Valid(db) && QuietRun(db, ss, clock) && pair.knownAt <= clock
    ensures CommandAnswer(Run(db, ss), o, pair) == CommandAnswer(db, o, pair)
    ensures DatabaseAnswer(Run(db, ss), o, pair) == DatabaseAnswer(db, o, pair)
  {
    QuietRunKeepsKnown(db, ss, clock);
    SameKnownSameCommandAnswer(db, Run(db, ss), clock, o, pair);
    SameKnownSameDatabaseAnswer(db, Run(db, ss), clock, o, pair);
  }
}
