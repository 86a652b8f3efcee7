/**
  Create, deactivate and restore: reading an attachment's activity at any known time.
 */
module ActivationTimeline {
  import opened Prelude
  import opened TemporalAssertions
  import opened AssertionStore
  import opened AsOf

  function RecordedAt(db: Db, id: Uuid): Instant
    requires Valid(db) && id in db.assertions
  {
    db.assertions[id].recordedAt.value
  }

  /** The object's rows, each superseding the one before it and recorded after it, all in
      force at one act date, and superseded by nothing else. */
  ghost predicate Chain(db: Db, o: Uuid, chain: seq<Uuid>, act: Instant)
    requires Valid(db)
  {
    && |chain| > 0
    && (forall i :: 0 <= i < |chain| ==> chain[i] in db.assertions && chain[i] in db.states)
    && (forall k :: k in db.assertions && db.assertions[k].objectId == o <==> k in chain)
    && (forall i :: 0 <= i < |chain| ==> InForce(db.assertions[chain[i]], act))
    && (forall i :: 0 < i < |chain| ==> db.assertions[chain[i]].supersedes == Some(chain[i - 1]))
    && (forall i :: 0 < i < |chain| ==> RecordedAt(db, chain[i - 1]) < RecordedAt(db, chain[i]))
    && (forall k, i | k in db.assertions && 0 <= i < |chain| && db.assertions[k].supersedes == Some(chain[i]) ::
          i + 1 < |chain| && k == chain[i + 1])
  }

  lemma {:induction false} ChainIsOrdered(db: Db, o: Uuid, chain: seq<Uuid>, act: Instant, i: nat, j: nat)
    requires Valid(db) && Chain(db, o, chain, act) && i < j < |chain|
    ensures RecordedAt(db, chain[i]) < RecordedAt(db, chain[j])
    decreases j
  {
    if i + 1 < j {
      ChainIsOrdered(db, o, chain, act, i, j - 1);
    }
  }

  /** A chain member is visible exactly while it is known and its successor is not. */
  lemma OnlyTheLastKnownIsVisible(db: Db, o: Uuid, chain: seq<Uuid>, act: Instant, i: nat, known: Instant)
    requires Valid(db) && Chain(db, o, chain, act) && i < |chain|
    ensures StateRowVisible(db, o, chain[i], TimePair(act, known)) <==>
      RecordedAt(db, chain[i]) <= known && (i + 1 < |chain| ==> known < RecordedAt(db, chain[i + 1]))
  {
    assert chain[i] in chain;
    if i + 1 < |chain| {
      var next := chain[i + 1];
      assert db.assertions[next].supersedes == Some(chain[i]);
      if RecordedAt(db, next) <= known {
        assert HasSuccessor(db, chain[i], known);
      }
    }
  }

  /** At every known time the view returns the last assertion recorded by then, active as its
      payload says: a deactivation reads inactive, a restoration active. */
  lemma TimelineIsReadable(db: Db, o: Uuid, chain: seq<Uuid>, act: Instant, i: nat, known: Instant)
    requires Valid(db) && Chain(db, o, chain, act) && i < |chain|
    requires RecordedAt(db, chain[i]) <= known
    requires i + 1 < |chain| ==> known < RecordedAt(db, chain[i + 1])
    ensures DatabaseAnswer(db, o, TimePair(act, known)) == State(chain[i], db.states[chain[i]])
    ensures db.assertions[chain[i]].kind == Deletion ==> !db.states[chain[i]]
    ensures db.assertions[chain[i]].kind == Restoration ==> db.states[chain[i]]
  {
    var pair := TimePair(act, known);
    OnlyTheLastKnownIsVisible(db, o, chain, act, i, known);
    forall id | StateRowVisible(db, o, id, pair)
      ensures id == chain[i]
    {
      var j :| 0 <= j < |chain| && chain[j] == id;
      OnlyTheLastKnownIsVisible(db, o, chain, act, j, known);
      if j < i {
        if j + 1 < i { ChainIsOrdered(db, o, chain, act, j + 1, i); }
      } else if i < j {
        if i + 1 < j { ChainIsOrdered(db, o, chain, act, i + 1, j); }
      }
    }
  }

  /** Before the first assertion is recorded there is nothing to read. */
  lemma TimelineStartsEmpty(db: Db, o: Uuid, chain: seq<Uuid>, act: Instant, known: Instant)
    requires Valid(db) && Chain(db, o, chain, act) && known < RecordedAt(db, chain[0])
    ensures DatabaseAnswer(db, o, TimePair(act, known)) == NoState
  {
    var pair := TimePair(act, known);
    forall id ensures !StateRowVisible(db, o, id, pair)
    {
      if StateRowVisible(db, o, id, pair) {
        var j :| 0 <= j < |chain| && chain[j] == id;
        if j > 0 { ChainIsOrdered(db, o, chain, act, 0, j); }
      }
    }
  }
}
