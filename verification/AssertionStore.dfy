/**
  The append-only assertion tables and the guards on them.

  Three tables: the object registry, the temporal assertions and the activity payload
  of content attachments.  Every statement either passes all constraints and triggers
  and takes effect, or is refused and changes nothing.
 */
module AssertionStore {
  import opened Prelude
  import opened TemporalAssertions
  import opened ObjectRegistry

  const ATTACHMENT_FAMILY := "content_attachment"

  datatype Db = Db(
    registry: map<Uuid, Entry>,
    assertions: map<Uuid, Assertion>,
    states: map<Uuid, bool>)

  // ---------- constraints ----------

  /** NOT NULL and CHECK constraints of one assertion row. */
  predicate RowConstraints(a: Assertion) {
    && a.revision > 0
    && a.effectiveFrom.Some? && a.recordedAt.Some?
    && (a.effectiveUntil.None? || a.effectiveUntil.value > a.effectiveFrom.value)
    && a.family != ""
    && a.supersedes != Some(a.id)
  }

  predicate References(db: Db, a: Assertion) {
    && a.objectId in db.registry
    && (a.supersedes.None? || a.supersedes.value in db.assertions)
  }

  /** What the state guard demands of an attachment payload. */
  predicate StateAgrees(db: Db, id: Uuid, active: bool)
    requires id in db.assertions && db.assertions[id].objectId in db.registry
  {
    var a := db.assertions[id];
    && a.family == ATTACHMENT_FAMILY
    && db.registry[a.objectId].kind == ObjectKind.ContentAttachment
    && (a.kind == Deletion ==> !active)
    && (a.kind == Restoration ==> active)
  }

  ghost predicate Valid(db: Db) {
    && (forall o :: o in db.registry ==> Allowlisted(db.registry[o]))
    && (forall k :: k in db.assertions ==>
      db.assertions[k].id == k && RowConstraints(db.assertions[k]) && References(db, db.assertions[k]))
    && (forall j, k | j in db.assertions && k in db.assertions && j != k
                      && db.assertions[j].objectId == db.assertions[k].objectId ::
          db.assertions[j].revision != db.assertions[k].revision)
    && (forall k :: k in db.states ==> k in db.assertions && StateAgrees(db, k, db.states[k]))
  }

  /** The constraints of one row, column by column. */
  lemma RowConstraintsByColumn(a: Assertion)
    ensures RowConstraints(a) <==>
      && a.revision >= 1 && a.family != ""
      && a.effectiveFrom.Some? && a.recordedAt.Some?
      && (a.effectiveUntil.Some? ==> a.effectiveFrom.value < a.effectiveUntil.value)
      && (a.supersedes.Some? ==> a.supersedes.value != a.id)
  {
  }

  /** In valid tables a payload belongs to an attachment assertion about a registered attachment,
      reads inactive for a deletion and active for a restoration. */
  lemma PayloadsByColumn(db: Db, id: Uuid)
    requires Valid(db) && id in db.states
    ensures id in db.assertions && db.assertions[id].family == "content_attachment"
    ensures db.assertions[id].objectId in db.registry
    ensures db.registry[db.assertions[id].objectId] == Entry(ObjectKind.ContentAttachment, ContentAttachments)
    ensures db.assertions[id].kind == Deletion ==> db.states[id] == false
    ensures db.assertions[id].kind == Restoration ==> db.states[id] == true
  {
    assert StateAgrees(db, id, db.states[id]) && References(db, db.assertions[id]);
  }

  // ---------- the append-only trigger ----------

  datatype Column =
    | AssertionId | ObjectId | PayloadFamily | AssertionKind | RevisionNo | EffectiveFrom | EffectiveUntil
    | RecordedAt | AcceptedBy | AcceptedVia | AcceptanceOperationId | AcceptanceComment
    | SupersedesAssertionId

  predicate Differs(c: Column, was: Assertion, now: Assertion) {
    match c
    case AssertionId => now.id != was.id
    case ObjectId => now.objectId != was.objectId
    case PayloadFamily => now.family != was.family
    case AssertionKind => now.kind != was.kind
    case RevisionNo => now.revision != was.revision
    case EffectiveFrom => now.effectiveFrom != was.effectiveFrom
    case EffectiveUntil => now.effectiveUntil != was.effectiveUntil
    case RecordedAt => now.recordedAt != was.recordedAt
    case AcceptedBy => now.acceptance.acceptedBy != was.acceptance.acceptedBy
    case AcceptedVia => now.acceptance.via != was.acceptance.via
    case AcceptanceOperationId => now.acceptance.operation != was.acceptance.operation
    case AcceptanceComment => now.acceptance.comment != was.acceptance.comment
    case SupersedesAssertionId => now.supersedes != was.supersedes
  }

  /** The two rewrites that leave the evidence alone: none at all, or dropping the link. */
  predicate Permitted(was: Assertion, now: Assertion) {
    now == was || now == was.(supersedes := None)
  }

  method AppendOnlyTrigger(was: Assertion, now: Assertion) returns (offending: Option<Column>)
    ensures offending.None? <==> Permitted(was, now)
    ensures offending.Some? ==> Differs(offending.value, was, now)
    ensures offending == Some(SupersedesAssertionId) ==>
      now == was.(supersedes := now.supersedes) && now.supersedes.Some?
  {
    offending := None;
    if now.id != was.id {
      offending := Some(AssertionId);
    } else if now.objectId != was.objectId {
      offending := Some(ObjectId);
    } else if now.family != was.family {
      offending := Some(PayloadFamily);
    } else if now.kind != was.kind {
      offending := Some(AssertionKind);
    } else if now.revision != was.revision {
      offending := Some(RevisionNo);
    } else if now.effectiveFrom != was.effectiveFrom {
      offending := Some(EffectiveFrom);
    } else if now.effectiveUntil != was.effectiveUntil {
      offending := Some(EffectiveUntil);
    } else if now.recordedAt != was.recordedAt {
      offending := Some(RecordedAt);
    } else if now.acceptance.acceptedBy != was.acceptance.acceptedBy {
      offending := Some(AcceptedBy);
    } else if now.acceptance.via != was.acceptance.via {
      offending := Some(AcceptedVia);
    } else if now.acceptance.operation != was.acceptance.operation {
      offending := Some(AcceptanceOperationId);
    } else if now.acceptance.comment != was.acceptance.comment {
      offending := Some(AcceptanceComment);
    }
    if offending.None? && now.supersedes != was.supersedes && now.supersedes.Some? {
      offending := Some(SupersedesAssertionId);
    }
  }

  // ---------- statements, as transitions ----------

  datatype Statement =
    | Register(objectId: Uuid, entry: Entry)
    | Unregister(objectId: Uuid)
    | InsertAssertion(row: Assertion)
    | UpdateAssertion(id: Uuid, row: Assertion)
    | DeleteAssertion(id: Uuid)
    | InsertState(id: Uuid, active: bool)
    | UpdateState(id: Uuid, newId: Uuid, active: bool)
    | DeleteState(id: Uuid)

  predicate Insertable(db: Db, a: Assertion) {
    && a.id !in db.assertions
    && (forall k :: k in db.assertions && db.assertions[k].objectId == a.objectId ==>
      db.assertions[k].revision != a.revision)
    && RowConstraints(a) && References(db, a)
  }

  /** The rows that the registry cascade takes with one object. */
  function Victims(db: Db, o: Uuid): set<Uuid> {
    set k | k in db.assertions && db.assertions[k].objectId == o
  }

  function Unlinked(a: Assertion, gone: set<Uuid>): Assertion {
    if a.supersedes.Some? && a.supersedes.value in gone then a.(supersedes := None) else a
  }

  function Removed(db: Db, o: Uuid): Db {
    if o !in db.registry then db
    else
      var gone := Victims(db, o);
      Db(db.registry - {o},
         map k | k in db.assertions && k !in gone :: Unlinked(db.assertions[k], gone),
         db.states - gone)
  }

  /** One row goes: its payload goes with it and the links that named it are cleared. */
  function RowDeleted(db: Db, id: Uuid): Db {
    Db(db.registry,
       map k | k in db.assertions && k != id :: Unlinked(db.assertions[k], {id}),
       db.states - {id})
  }

  /** The effect of one statement; a refused statement has none. */
  function Apply(db: Db, s: Statement): Db {
    match s
    case Register(o, e) =>
      if o !in db.registry && Allowlisted(e) then db.(registry := db.registry[o := e]) else db
    case Unregister(o) => Removed(db, o)
    case InsertAssertion(a) =>
      if Insertable(db, a) then db.(assertions := db.assertions[a.id := a]) else db
    case UpdateAssertion(id, a) =>
      if id in db.assertions && Permitted(db.assertions[id], a)
      then db.(assertions := db.assertions[id := a]) else db
    case DeleteAssertion(id) => if id in db.assertions then RowDeleted(db, id) else db
    case InsertState(id, active) =>
      if id in db.assertions && db.assertions[id].objectId in db.registry && id !in db.states
         && StateAgrees(db, id, active)
      then db.(states := db.states[id := active]) else db
    case UpdateState(_, _, _) => db
    case DeleteState(id) => db.(states := db.states - {id})
  }

  function Run(db: Db, ss: seq<Statement>): Db
    decreases |ss|
  {
    if ss == [] then db else Run(Apply(db, ss[0]), ss[1..])
  }

  lemma UnregisterKeepsValid(db: Db, o: Uuid)
    requires Valid(db)
    ensures Valid(Removed(db, o))
  {
  }

  lemma DeleteKeepsValid(db: Db, id: Uuid)
    requires Valid(db)
    ensures Valid(RowDeleted(db, id))
  {
    var after := RowDeleted(db, id);
    forall k | k in after.assertions
      ensures after.assertions[k].id == k && RowConstraints(after.assertions[k])
      ensures References(after, after.assertions[k])
    {
      assert References(db, db.assertions[k]);
    }
    forall k | k in after.states ensures k in after.assertions && StateAgrees(after, k, after.states[k]) {
      assert StateAgrees(db, k, db.states[k]);
    }
  }

  lemma UpdateKeepsValid(db: Db, id: Uuid, now: Assertion)
    requires Valid(db) && id in db.assertions && Permitted(db.assertions[id], now)
    ensures Valid(db.(assertions := db.assertions[id := now]))
  {
  }

  lemma InsertKeepsValid(db: Db, a: Assertion)
    requires Valid(db) && Insertable(db, a)
    ensures Valid(db.(assertions := db.assertions[a.id := a]))
  {
  }

  /** Nothing lawful is refused: a row enters exactly when its id is new and the tables with it
      are valid. */
  lemma InsertAcceptedIff(db: Db, a: Assertion)
    requires Valid(db)
    ensures Insertable(db, a) <==>
      a.id !in db.assertions && Valid(db.(assertions := db.assertions[a.id := a]))
  {
    if Insertable(db, a) { InsertKeepsValid(db, a); }
    var after := db.(assertions := db.assertions[a.id := a]);
    if a.id !in db.assertions && Valid(after) {
      assert a.id in after.assertions && after.assertions[a.id] == a;
      forall k | k in db.assertions && db.assertions[k].objectId == a.objectId
        ensures db.assertions[k].revision != a.revision
      {
        assert after.assertions[k] == db.assertions[k];
      }
    }
  }

  /** So does a payload: exactly when its assertion has none yet and the tables with it are valid. */
  lemma PayloadAcceptedIff(db: Db, id: Uuid, active: bool)
    requires Valid(db)
    ensures Apply(db, InsertState(id, active)) ==
      if id !in db.states && Valid(db.(states := db.states[id := active]))
      then db.(states := db.states[id := active]) else db
  {
    var after := db.(states := db.states[id := active]);
    if id !in db.states && Valid(after) {
      assert id in after.states && after.states[id] == active;
    }
    if id in db.assertions && id !in db.states && StateAgrees(db, id, active) {
      assert forall k :: k in after.states ==> k == id || k in db.states;
      assert Valid(after);
    }
  }

  /** And an object: exactly when it is new and its entry is on the allowlist. */
  lemma RegistrationAcceptedIff(db: Db, o: Uuid, e: Entry)
    requires Valid(db)
    ensures Apply(db, Register(o, e)) ==
      if o !in db.registry && Valid(db.(registry := db.registry[o := e]))
      then db.(registry := db.registry[o := e]) else db
  {
    var after := db.(registry := db.registry[o := e]);
    if Valid(after) { assert o in after.registry && after.registry[o] == e; }
    if o !in db.registry && Allowlisted(e) { RegisterKeepsValid(db, o, e); }
  }

  lemma RegisterKeepsValid(db: Db, o: Uuid, e: Entry)
    requires Valid(db) && o !in db.registry && Allowlisted(e)
    ensures Valid(db.(registry := db.registry[o := e]))
  {
    var after := db.(registry := db.registry[o := e]);
    forall k | k in after.assertions ensures References(after, after.assertions[k]) {
      assert References(db, db.assertions[k]);
    }
  }

  /** Every statement keeps every constraint, including the payload guard's promises. */
  lemma ApplyKeepsValid(db: Db, s: Statement)
    requires Valid(db)
    ensures Valid(Apply(db, s))
  {
    match s
    case Unregister(o) => UnregisterKeepsValid(db, o);
    case DeleteAssertion(id) => DeleteKeepsValid(db, id);
    case InsertAssertion(a) => if Insertable(db, a) { InsertKeepsValid(db, a); }
    case UpdateAssertion(id, a) =>
      if id in db.assertions && Permitted(db.assertions[id], a) { UpdateKeepsValid(db, id, a); }
    case _ =>
  }

  lemma {:induction false} RunKeepsValid(db: Db, ss: seq<Statement>)
    requires Valid(db)
    ensures Valid(Run(db, ss))
    decreases |ss|
  {
    if ss != [] {
      ApplyKeepsValid(db, ss[0]);
      RunKeepsValid(Apply(db, ss[0]), ss[1..]);
    }
  }

  lemma RemovedByHand(was: Db, o: Uuid, left: map<Uuid, Assertion>)
    requires o in was.registry
    requires left.Keys == was.assertions.Keys - Victims(was, o)
    requires forall k :: k in left ==> left[k] == Unlinked(was.assertions[k], Victims(was, o))
    ensures left == Removed(was, o).assertions
  {
    var right := Removed(was, o).assertions;
    assert left.Keys == right.Keys;
    assert forall k :: k in left ==> left[k] == right[k];
  }

  // ---------- the tables themselves ----------

  class Tables {
    var registry: map<Uuid, Entry>
    var assertions: map<Uuid, Assertion>
    var states: map<Uuid, bool>

    function Contents(): Db
      reads this
    {
      Db(registry, assertions, states)
    }

    constructor ()
      ensures Contents() == Db(map[], map[], map[])
      ensures Valid(Contents())
    {
      registry, assertions, states := map[], map[], map[];
    }

    /** A typed row registers its id through the registration trigger. */
    method Register(o: Uuid, table: Table) returns (ok: bool)
      modifies this`registry
      ensures ok <==> o !in old(registry) && KindOf(table).Some?
      ensures Contents() ==
        if KindOf(table).Some? then Apply(old(Contents()), Statement.Register(o, Entry(KindOf(table).value, table)))
        else old(Contents())
    {
      var registered := RegisterTrigger(registry, table, o);
      ok := registered.Some?;
      if ok {
        registry := registered.value;
      }
    }

    method Insert(a: Assertion) returns (ok: bool)
      modifies this
      ensures ok <==> Insertable(old(Contents()), a)
      ensures Contents() == Apply(old(Contents()), InsertAssertion(a))
    {
      ok := Insertable(Contents(), a);
      if ok {
        assertions := assertions[a.id := a];
      }
    }

    method Update(id: Uuid, now: Assertion) returns (ok: bool)
      modifies this
      ensures ok <==> id in old(assertions) ==> Permitted(old(assertions)[id], now)
      ensures Contents() == Apply(old(Contents()), UpdateAssertion(id, now))
    {
      if id !in assertions {
        return true;  // no row matches, so no trigger fires
      }
      var offending := AppendOnlyTrigger(assertions[id], now);
      if offending.Some? {
        return false;
      }
      assertions := assertions[id := now];
      return true;
    }

    /** The payload guard runs first; a missing assertion is left to the foreign key. */
    method StateGuard(id: Uuid, active: bool) returns (ok: bool)
      ensures ok <==> id in assertions ==>
        && assertions[id].family == ATTACHMENT_FAMILY
        && assertions[id].objectId in registry
        && StateAgrees(Contents(), id, active)
    {
      if id !in assertions {
        return true;
      }
      var asserted := assertions[id];
      if asserted.family != ATTACHMENT_FAMILY {
        return false;
      }
      if asserted.objectId !in registry || registry[asserted.objectId].kind != ObjectKind.ContentAttachment {
        return false;
      }
      if asserted.kind == Deletion && active {
        return false;
      }
      if asserted.kind == Restoration && !active {
        return false;
      }
      return true;
    }

    method AddState(id: Uuid, active: bool) returns (ok: bool)
      modifies this
      ensures Contents() == Apply(old(Contents()), InsertState(id, active))
      ensures ok <==> id in old(assertions) && id !in old(states) && id in states && states[id] == active
    {
      ok := StateGuard(id, active);
      ok := ok && id !in states && id in assertions;
      if ok {
        states := states[id := active];
      }
    }

    /** Deleting a registry row: the assertions of the object go in one cascade, then each
        removed row clears the links that named it, through the append-only trigger, and
        takes its payload with it.  The trigger never objects. */
    method Unregister(o: Uuid) returns (ok: bool)
      modifies this
      ensures ok
      ensures Contents() == Apply(old(Contents()), Statement.Unregister(o))
    {
      if o !in registry {
        return true;
      }
      ghost var was := Contents();
      var victims := Victims(Contents(), o);
      registry := registry - {o};
      assertions := assertions - victims;
      var pending := victims;
      while pending != {}
        invariant pending <= victims
        invariant registry == was.registry - {o}
        invariant assertions.Keys == was.assertions.Keys - victims
        invariant forall k :: k in assertions ==> assertions[k] == Unlinked(was.assertions[k], victims - pending)
        invariant states == was.states - (victims - pending)
        decreases pending
      {
        ghost var _ := AnyMember(pending);
        var gone :| gone in pending;
        pending := pending - {gone};
        ok := ClearLinksTo(gone);
        if !ok {
          return;
        }
        states := states - {gone};
      }
      assert victims - pending == victims;
      RemovedByHand(was, o, assertions);
      return true;
    }

    /** Deleting one assertion: no trigger watches for it.  Its payload goes, and each link that
        named it is cleared through the append-only trigger, which never objects. */
    method Delete(id: Uuid) returns (ok: bool)
      modifies this
      ensures ok
      ensures Contents() == Apply(old(Contents()), DeleteAssertion(id))
    {
      if id !in assertions {
        return true;
      }
      ghost var was := Contents();
      assertions := assertions - {id};
      ok := ClearLinksTo(id);
      states := states - {id};
      assert assertions == RowDeleted(was, id).assertions;
    }

    /** Deleting one payload leaves its assertion alone. */
    method DropState(id: Uuid)
      modifies this`states
      ensures Contents() == Apply(old(Contents()), DeleteState(id))
    {
      states := states - {id};
    }

    /** The SET NULL statement of the self-reference, row by row through the trigger. */
    method ClearLinksTo(gone: Uuid) returns (ok: bool)
      modifies this`assertions
      ensures ok
      ensures assertions == map k | k in old(assertions) :: Unlinked(old(assertions)[k], {gone})
    {
      var referencing := set k | k in assertions && assertions[k].supersedes == Some(gone);
      while referencing != {}
        invariant forall k :: k in referencing ==> k in assertions && assertions[k].supersedes == Some(gone)
        invariant assertions.Keys == old(assertions).Keys
        invariant forall k :: k in assertions && k !in referencing ==>
          assertions[k] == Unlinked(old(assertions)[k], {gone})
        invariant forall k :: k in referencing ==> assertions[k] == old(assertions)[k]
        decreases referencing
      {
        ghost var _ := AnyMember(referencing);
        var k :| k in referencing;
        var now := assertions[k].(supersedes := None);
        var offending := AppendOnlyTrigger(assertions[k], now);
        if offending.Some? {
          return false;
        }
        assertions := assertions[k := now];
        referencing := referencing - {k};
      }
      assert forall k :: k in assertions ==> assertions[k] == Unlinked(old(assertions)[k], {gone});
      return true;
    }
  }
}
