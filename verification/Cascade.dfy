/**
  Executing statements on the document store: the cascade as the database runs it.
 */
module Cascade {
  import opened Prelude
  import opened ObjectRegistry
  import opened DocumentStore
  import Runs = ProcessingRuns

  /** Which generation of the run guard is installed. */
  datatype Guard = Original | Releasing

  /** The guard lets every run that names a removed row let go of it. */
  ghost predicate GuardPermits(g: Guard, s: Store, root: Key)
    requires Linked(s)
  {
    g == Releasing || root !in s.rows
    || forall i :: i in s.runs && Runs.Terminal(s.runs[i]) ==> !PointsInto(s.runs[i], Closure(s, root))
  }

  // ---------- facts the cascade loop needs ----------

  /** When no remaining row hangs from a removed one, every reached row has been removed. */
  lemma {:induction false} ReachedIsRemoved(rows: map<Key, Row>, root: Key, removed: set<Key>, k: Key)
    requires RowsLinked(rows) && root in removed
    requires forall j :: j in rows && j !in removed ==> Parents(rows[j]) !! removed
    requires k in rows && Reached(rows, root, k)
    ensures k in removed
    decreases Depth(k.table)
  {
    if k !in removed {
      var p :| p in Parents(rows[k]) && Reached(rows, root, p);
      assert p in rows && Depth(p.table) < Depth(k.table);
      ReachedIsRemoved(rows, root, removed, p);
    }
  }

  // ---------- one removed row against one run ----------

  /** The reference through which a run may name a row of the table. */
  function ReferenceTo(r: Runs.Run, t: Table): Option<Uuid> {
    match t
    case Documents => r.scope.documentId
    case Chapters => r.scope.chapterId
    case SemanticChunks => r.scope.chunkId
    case _ => None
  }

  /** SET NULL on that reference. */
  function Nulled(r: Runs.Run, t: Table): Runs.Run {
    match t
    case Documents => r.(scope := r.scope.(documentId := None))
    case Chapters => r.(scope := r.scope.(chapterId := None))
    case SemanticChunks => r.(scope := r.scope.(chunkId := None))
    case _ => r
  }

  lemma ReleaseOneRow(r: Runs.Run, k: Key)
    ensures PointsInto(r, {k}) <==> ReferenceTo(r, k.table) == Some(k.id)
    ensures Release(r, {k}) == if ReferenceTo(r, k.table) == Some(k.id) then Nulled(r, k.table) else r
  {
  }

  // ---------- the cascade invariant ----------

  /** `done` rows are fully dealt with, `pending` rows are removed but still to be worked off. */
  ghost predicate CascadeInvariant(was: Store, root: Key, now: Store, pending: set<Key>, done: set<Key>)
    requires Valid(was)
  {
    && root in was.rows && root in pending + done && pending !! done
    && pending + done <= Closure(was, root)
    && now.rows == was.rows - (pending + done)
    && (forall k :: k in now.rows ==> Parents(now.rows[k]) !! done)
    && now.registry == Unregistered(was, done)
    && now.runs == AllReleased(was, done)
  }

  ghost function Unregistered(s: Store, gone: set<Key>): map<Uuid, Entry> {
    map id | id in s.registry && Key(s.registry[id].table, id) !in gone :: s.registry[id]
  }

  ghost function AllReleased(s: Store, gone: set<Key>): map<Uuid, Runs.Run> {
    map i | i in s.runs :: Release(s.runs[i], gone)
  }

  lemma CascadeStart(was: Store, root: Key)
    requires Valid(was) && root in was.rows
    ensures CascadeInvariant(was, root, was.(rows := was.rows - {root}), {root}, {})
  {
    assert forall i :: i in was.runs ==> Release(was.runs[i], {}) == was.runs[i];
    assert AllReleased(was, {}) == was.runs;
    assert Unregistered(was, {}) == was.registry;
    assert {root} + {} == {root};
  }

  lemma UnregisterStep(was: Store, done: set<Key>, k: Key)
    requires Registered(was) && k in was.rows && k !in done
    ensures UnregisterTrigger(Unregistered(was, done), k.table, k.id) == Unregistered(was, done + {k})
  {
    var a, b := UnregisterTrigger(Unregistered(was, done), k.table, k.id), Unregistered(was, done + {k});
    assert k == Key(k.table, k.id);
    assert forall id :: id in a <==> id in b;
  }

  lemma ReleaseStep(was: Store, done: set<Key>, k: Key)
    ensures (map i | i in was.runs :: Release(AllReleased(was, done)[i], {k})) == AllReleased(was, done + {k})
  {
    var released := AllReleased(was, done);
    assert forall i :: i in was.runs ==> Release(released[i], {k}) == Release(was.runs[i], done + {k});
  }

  ghost function Children(rows: map<Key, Row>, k: Key): set<Key> {
    set c | c in rows && k in Parents(rows[c])
  }

  lemma ChildrenStep(was: Store, root: Key, now: Store, pending: set<Key>, done: set<Key>, k: Key)
    requires Valid(was) && CascadeInvariant(was, root, now, pending, done) && k in pending
    ensures var children := Children(now.rows, k);
      var pending', done' := pending - {k} + children, done + {k};
      && root in pending' + done' && pending' !! done'
      && pending' + done' <= Closure(was, root)
      && now.rows - children == was.rows - (pending' + done')
      && (forall j :: j in now.rows - children ==> Parents(now.rows[j]) !! done')
  {
    var children := Children(now.rows, k);
    forall c | c in children ensures c in Closure(was, root) {
      assert k in Closure(was, root) && c in was.rows && k in Parents(was.rows[c]);
    }
    var pending', done' := pending - {k} + children, done + {k};
    assert pending' + done' == pending + done + children;
  }

  lemma CascadeEnd(was: Store, root: Key, now: Store, done: set<Key>)
    requires Valid(was) && CascadeInvariant(was, root, now, {}, done)
    ensures now == Deleted(was, root) && done == Closure(was, root)
  {
    assert {} + done == done;
    assert forall j :: j in was.rows && j !in done ==> j in now.rows && now.rows[j] == was.rows[j];
    forall k | k in Closure(was, root) ensures k in done {
      ReachedIsRemoved(was.rows, root, done, k);
    }
    assert done == Closure(was, root);
  }

  /** Some terminal run holds on to a row of the closure. */
  lemma RefusalIsFinal(was: Store, root: Key, done: set<Key>, k: Key, i: Uuid)
    requires Valid(was) && root in was.rows && k in Closure(was, root) && k !in done && i in was.runs
    requires Runs.Terminal(AllReleased(was, done)[i]) && PointsInto(AllReleased(was, done)[i], {k})
    ensures !GuardPermits(Original, was, root)
  {
  }

  /** So far no terminal run held on to anything. */
  ghost predicate NothingHeld(was: Store, done: set<Key>) {
    forall i :: i in was.runs && Runs.Terminal(was.runs[i]) ==> !PointsInto(was.runs[i], done)
  }

  lemma NothingHeldStep(was: Store, done: set<Key>, k: Key)
    requires NothingHeld(was, done) && k !in done
    requires forall i :: i in was.runs && Runs.Terminal(AllReleased(was, done)[i]) ==> !PointsInto(AllReleased(was, done)[i], {k})
    ensures NothingHeld(was, done + {k})
  {
  }

  /** Working off one pending row keeps the cascade invariant. */
  lemma CascadeStep(was: Store, root: Key, now: Store, next: Store, pending: set<Key>, done: set<Key>, k: Key)
    requires Valid(was) && CascadeInvariant(was, root, now, pending, done) && k in pending
    requires next.rows == now.rows - Children(now.rows, k)
    requires next.registry == UnregisterTrigger(now.registry, k.table, k.id)
    requires next.runs == map i | i in now.runs :: Release(now.runs[i], {k})
    ensures CascadeInvariant(was, root, next, pending - {k} + Children(now.rows, k), done + {k})
  {
    UnregisterStep(was, done, k);
    ReleaseStep(was, done, k);
    ChildrenStep(was, root, now, pending, done, k);
  }

  // ---------- the tables ----------

  class Database {
    var rows: map<Key, Row>
    var registry: map<Uuid, Entry>
    var runs: map<Uuid, Runs.Run>
    const guard: Guard

    function Contents(): Store
      reads this
    {
      Store(rows, registry, runs)
    }

    constructor (g: Guard)
      ensures guard == g && Contents() == Store(map[], map[], map[]) && Valid(Contents())
    {
      guard := g;
      rows, registry, runs := map[], map[], map[];
    }

    /** One row of the SET NULL statement, through the installed guard. */
    method ReleaseRun(i: Uuid, t: Table) returns (ok: bool)
      requires i in runs
      modifies this`runs
      ensures ok <==> guard == Releasing || !Runs.Terminal(old(runs)[i])
      ensures runs == if ok then old(runs)[i := Nulled(old(runs)[i], t)] else old(runs)
    {
      var now := Nulled(runs[i], t);
      ok := Guarded(runs[i], now);
      if ok {
        runs := runs[i := now];
      }
    }

    /** The SET NULL statement for one removed row; the first refusal aborts. */
    method ReleaseRuns(k: Key) returns (ok: bool)
      modifies this`runs
      ensures guard == Releasing ==> ok
      ensures ok ==> runs == map i | i in old(runs) :: Release(old(runs)[i], {k})
      ensures ok && guard == Original ==>
        forall i :: i in old(runs) && Runs.Terminal(old(runs)[i]) ==> !PointsInto(old(runs)[i], {k})
      ensures !ok ==> exists i :: i in old(runs) && Runs.Terminal(old(runs)[i]) && PointsInto(old(runs)[i], {k})
    {
      ghost var was := runs;
      forall i | i in was
        ensures PointsInto(was[i], {k}) <==> ReferenceTo(was[i], k.table) == Some(k.id)
        ensures Release(was[i], {k}) == if ReferenceTo(was[i], k.table) == Some(k.id) then Nulled(was[i], k.table) else was[i]
      {
        ReleaseOneRow(was[i], k);
      }
      var referencing := set i | i in runs && ReferenceTo(runs[i], k.table) == Some(k.id);
      while referencing != {}
        invariant referencing <= was.Keys && runs.Keys == was.Keys
        invariant forall i :: i in referencing ==> runs[i] == was[i] && PointsInto(was[i], {k})
        invariant forall i :: i in was && i !in referencing ==> runs[i] == Release(was[i], {k})
        invariant forall i :: i in was && i !in referencing && PointsInto(was[i], {k}) ==>
          guard == Releasing || !Runs.Terminal(was[i])
        decreases referencing
      {
        ghost var _ := AnyMember(referencing);
        var i :| i in referencing;
        ok := ReleaseRun(i, k.table);
        if !ok {
          return;
        }
        referencing := referencing - {i};
      }
      assert forall i :: i in runs ==> runs[i] == Release(was[i], {k});
      return true;
    }

    /** INSERT of one row: primary key, references, then the registration trigger. */
    method Insert(k: Key, r: Row) returns (ok: bool)
      requires Valid(Contents())
      modifies this
      ensures ok <==> RowInsertable(old(Contents()), k, r)
      ensures Contents() == Apply(guard, old(Contents()), InsertRow(k, r))
    {
      if k in rows || !Shaped(k, r) || !(Parents(r) <= rows.Keys) {
        return false;
      }
      var registered := RegisterTrigger(registry, k.table, k.id);
      if registered.None? {
        return false;
      }
      rows, registry := rows[k := r], registered.value;
      return true;
    }

    /** The installed guard on one update of a run. */
    method Guarded(was: Runs.Run, now: Runs.Run) returns (ok: bool)
      ensures ok <==> if guard == Original then Runs.AcceptedOriginally(was, now) else Runs.Accepted(was, now)
    {
      if guard == Original {
        ok := Runs.OriginalGuard(was, now);
      } else {
        ok := Runs.ReleasingGuard(was, now);
      }
    }

    /** UPDATE of one run: the installed guard, then the constraints and references. */
    method UpdateRun(i: Uuid, now: Runs.Run) returns (ok: bool)
      requires Valid(Contents()) && i in runs
      modifies this`runs
      ensures ok <==> RunUpdatable(guard, old(Contents()), i, now)
      ensures Contents() == Apply(guard, old(Contents()), Statement.UpdateRun(i, now))
    {
      ok := Guarded(runs[i], now);
      ok := ok && Runs.RunConstraints(now) && RunReferences(rows, now);
      assert ok <==> RunUpdatable(guard, Contents(), i, now);
      if ok {
        runs := runs[i := now];
      }
    }

    /** DELETE of one run: no trigger watches for it, only the keys of rows that cite it do. */
    method DeleteRun(i: Uuid, cited: bool) returns (ok: bool)
      requires Valid(Contents())
      modifies this`runs
      ensures ok <==> !cited
      ensures Contents() == Apply(guard, old(Contents()), Statement.DeleteRun(i, cited))
    {
      ok := !cited;
      if ok {
        runs := runs - {i};
      }
    }

    /** One removed row: unregister it, release the runs, remove the rows that hang from it. */
    method WorkOff(k: Key) returns (ok: bool, children: set<Key>)
      modifies this
      ensures guard == Releasing ==> ok
      ensures !ok ==> exists i :: i in old(runs) && Runs.Terminal(old(runs)[i]) && PointsInto(old(runs)[i], {k})
      ensures ok && guard == Original ==>
        forall i :: i in old(runs) && Runs.Terminal(old(runs)[i]) ==> !PointsInto(old(runs)[i], {k})
      ensures ok ==> children == Children(old(rows), k) && rows == old(rows) - children
      ensures ok ==> registry == UnregisterTrigger(old(registry), k.table, k.id)
      ensures ok ==> runs == map i | i in old(runs) :: Release(old(runs)[i], {k})
    {
      children := {};
      registry := UnregisterTrigger(registry, k.table, k.id);
      ok := ReleaseRuns(k);
      if ok {
        children := set c | c in rows && k in Parents(rows[c]);
        rows := rows - children;
      }
    }

    /** Removed rows are worked off one by one until none is pending; a refusal stops midway. */
    method Cascade(root: Key) returns (ok: bool)
      requires Valid(Contents()) && root in rows
      modifies this
      ensures ok ==> Contents() == Deleted(old(Contents()), root)
      ensures ok && guard == Original ==> NothingHeld(old(Contents()), Closure(old(Contents()), root))
      ensures !ok ==> guard == Original && !GuardPermits(Original, old(Contents()), root)
    {
      ghost var was := Contents();
      CascadeStart(was, root);
      rows := rows - {root};
      var pending := {root};
      ghost var done: set<Key> := {};
      while pending != {}
        invariant CascadeInvariant(was, root, Contents(), pending, done)
        invariant guard == Original ==> NothingHeld(was, done)
        decreases rows.Keys, pending
      {
        ghost var _ := AnyMember(pending);
        var k :| k in pending;
        ghost var before := Contents();
        var children;
        ok, children := WorkOff(k);
        if !ok {
          ghost var i :| i in before.runs && Runs.Terminal(before.runs[i]) && PointsInto(before.runs[i], {k});
          RefusalIsFinal(was, root, done, k, i);
          return;
        }
        if guard == Original {
          NothingHeldStep(was, done, k);
        }
        CascadeStep(was, root, before, Contents(), pending, done, k);
        pending := pending - {k} + children;
        done := done + {k};
      }
      CascadeEnd(was, root, Contents(), done);
      return true;
    }

    /** DELETE of one row.  A refusal anywhere rolls the whole statement back. */
    method Delete(root: Key) returns (ok: bool)
      requires Valid(Contents())
      modifies this
      ensures ok <==> GuardPermits(guard, old(Contents()), root)
      ensures Contents() == Apply(guard, old(Contents()), DeleteRow(root))
    {
      if root !in rows {
        return true;
      }
      var savedRows, savedRegistry, savedRuns := rows, registry, runs;
      ok := Cascade(root);
      if !ok {
        rows, registry, runs := savedRows, savedRegistry, savedRuns;
      }
    }
  }

  // ---------- whole runs of statements ----------

  datatype Statement =
    | InsertRow(key: Key, row: Row)
    | DeleteRow(root: Key)
    | InsertRun(run: Runs.Run)
    | UpdateRun(id: Uuid, now: Runs.Run)
    | DeleteRun(id: Uuid, cited: bool)  // whether a source state or diagnostic restricts it

  ghost predicate RowInsertable(s: Store, k: Key, r: Row) {
    k !in s.rows && Shaped(k, r) && Parents(r) <= s.rows.Keys && KindOf(k.table).Some? && k.id !in s.registry
  }

  ghost predicate RunInsertable(s: Store, r: Runs.Run) {
    r.audit.runId !in s.runs && Runs.RunConstraints(r) && RunReferences(s.rows, r)
  }

  ghost predicate RunUpdatable(g: Guard, s: Store, i: Uuid, now: Runs.Run)
  {
    && i in s.runs
    && (if g == Original then Runs.AcceptedOriginally(s.runs[i], now) else Runs.Accepted(s.runs[i], now))
    && Runs.RunConstraints(now) && RunReferences(s.rows, now)
  }

  /** The effect of one statement; a refused statement has none. */
  ghost function Apply(g: Guard, s: Store, st: Statement): Store
    requires Valid(s)
  {
    match st
    case InsertRow(k, r) =>
      if RowInsertable(s, k, r)
      then s.(rows := s.rows[k := r], registry := s.registry[k.id := Entry(KindOf(k.table).value, k.table)])
      else s
    case DeleteRow(root) => if GuardPermits(g, s, root) then Deleted(s, root) else s
    case InsertRun(r) => if RunInsertable(s, r) then s.(runs := s.runs[r.audit.runId := r]) else s
    case UpdateRun(i, now) => if RunUpdatable(g, s, i, now) then s.(runs := s.runs[i := now]) else s
    case DeleteRun(i, cited) => if cited then s else s.(runs := s.runs - {i})
  }

  lemma InsertRowKeepsValid(s: Store, k: Key, r: Row)
    requires Valid(s) && RowInsertable(s, k, r)
    ensures Valid(s.(rows := s.rows[k := r], registry := s.registry[k.id := Entry(KindOf(k.table).value, k.table)]))
  {
    var entry := Entry(KindOf(k.table).value, k.table);
    var after := s.(rows := s.rows[k := r], registry := s.registry[k.id := entry]);
    assert k == Key(k.table, k.id);
    forall t, id ensures Key(t, id) in after.rows <==> id in after.registry && after.registry[id].table == t
    {
      assert Key(t, id) in s.rows <==> id in s.registry && s.registry[id].table == t;
    }
  }

  lemma SetRunKeepsValid(s: Store, i: Uuid, r: Runs.Run)
    requires Valid(s) && r.audit.runId == i && Runs.RunConstraints(r) && RunReferences(s.rows, r)
    ensures Valid(s.(runs := s.runs[i := r]))
  {
    var after := s.(runs := s.runs[i := r]);
    assert Registered(after) && RowsLinked(after.rows);
  }

  /** Nothing lawful is refused: a row enters exactly when its key is new, its table has a kind
      and the store with it, registered, is valid. */
  lemma RowInsertableIff(s: Store, k: Key, r: Row)
    requires Valid(s)
    ensures RowInsertable(s, k, r) <==>
      && k !in s.rows && KindOf(k.table).Some?
      && Valid(s.(rows := s.rows[k := r], registry := s.registry[k.id := Entry(KindOf(k.table).value, k.table)]))
  {
    if RowInsertable(s, k, r) { InsertRowKeepsValid(s, k, r); }
    if k !in s.rows && KindOf(k.table).Some? {
      var after := s.(rows := s.rows[k := r], registry := s.registry[k.id := Entry(KindOf(k.table).value, k.table)]);
      if Valid(after) {
        if k.id in s.registry { TakenIdIsRefused(s, k, r); }
        assert Parents(r) <= after.rows.Keys && Shaped(k, r);
        NoRowHangsFromItself(k, r);
      }
    }
  }

  lemma TakenIdIsRefused(s: Store, k: Key, r: Row)
    requires Valid(s) && k !in s.rows && KindOf(k.table).Some? && k.id in s.registry
    ensures !Registered(s.(rows := s.rows[k := r], registry := s.registry[k.id := Entry(KindOf(k.table).value, k.table)]))
  {
    var after := s.(rows := s.rows[k := r], registry := s.registry[k.id := Entry(KindOf(k.table).value, k.table)]);
    var t := s.registry[k.id].table;
    assert Key(t, k.id) in s.rows;
    assert k == Key(k.table, k.id) && t != k.table;
    assert Key(t, k.id) in after.rows && after.registry[k.id].table != t;
  }

  lemma NoRowHangsFromItself(k: Key, r: Row)
    requires Shaped(k, r)
    ensures k !in Parents(r)
  {
  }

  /** A run enters exactly when its id is new and the store with it is valid, and is updated
      exactly when the guard lets it and the store with it is valid. */
  lemma RunStorableIff(g: Guard, s: Store, i: Uuid, r: Runs.Run)
    requires Valid(s)
    ensures RunInsertable(s, r) <==>
      r.audit.runId !in s.runs && Valid(s.(runs := s.runs[r.audit.runId := r]))
    ensures i in s.runs ==>
      (RunUpdatable(g, s, i, r) <==>
        && (if g == Original then Runs.AcceptedOriginally(s.runs[i], r) else Runs.Accepted(s.runs[i], r))
        && Valid(s.(runs := s.runs[i := r])))
  {
    if RunInsertable(s, r) { SetRunKeepsValid(s, r.audit.runId, r); }
    StoredRunIsLawful(s, r.audit.runId, r);
    if i in s.runs && RunUpdatable(g, s, i, r) {
      AcceptedKeepsRunId(s.runs[i], r);
      SetRunKeepsValid(s, i, r);
    }
    StoredRunIsLawful(s, i, r);
  }

  lemma StoredRunIsLawful(s: Store, i: Uuid, r: Runs.Run)
    ensures Valid(s.(runs := s.runs[i := r])) ==>
      r.audit.runId == i && Runs.RunConstraints(r) && RunReferences(s.rows, r)
  {
    var after := s.(runs := s.runs[i := r]);
    assert i in after.runs && after.runs[i] == r;
  }

  lemma AcceptedKeepsRunId(was: Runs.Run, now: Runs.Run)
    requires Runs.AcceptedOriginally(was, now) || Runs.Accepted(was, now)
    ensures now.audit.runId == was.audit.runId
  {
  }

  lemma DropRunKeepsValid(s: Store, i: Uuid)
    requires Valid(s)
    ensures Valid(s.(runs := s.runs - {i}))
  {
    var after := s.(runs := s.runs - {i});
    assert Registered(after) && RowsLinked(after.rows);
  }

  /** One statement keeps the registry exact, every reference resolvable and every run lawful. */
  lemma ApplyKeepsValid(g: Guard, s: Store, st: Statement)
    requires Valid(s)
    ensures Valid(Apply(g, s, st))
  {
    match st
    case InsertRow(k, r) =>
      if RowInsertable(s, k, r) { InsertRowKeepsValid(s, k, r); }
    case DeleteRow(root) =>
      DeletedKeepsValid(s, root);
    case InsertRun(r) =>
      if RunInsertable(s, r) { SetRunKeepsValid(s, r.audit.runId, r); }
    case UpdateRun(i, now) =>
      if RunUpdatable(g, s, i, now) { SetRunKeepsValid(s, i, now); }
    case DeleteRun(i, cited) =>
      if !cited { DropRunKeepsValid(s, i); }
  }

  lemma ReleaseIsAccepted(r: Runs.Run, gone: set<Key>)
    ensures Runs.Accepted(r, r) && Runs.Accepted(r, Release(r, gone))
  {
  }

  lemma DeletedKeepsRun(s: Store, root: Key, i: Uuid)
    requires Linked(s) && i in s.runs
    ensures i in Deleted(s, root).runs && Runs.Accepted(s.runs[i], Deleted(s, root).runs[i])
  {
    if root in s.rows { ReleaseIsAccepted(s.runs[i], Closure(s, root)); }
  }

  lemma UpdateKeepsRun(g: Guard, s: Store, j: Uuid, now: Runs.Run, i: Uuid)
    requires Valid(s) && i in s.runs && RunUpdatable(g, s, j, now)
    ensures var after := s.runs[j := now]; i in after && Runs.Accepted(s.runs[i], after[i])
  {
    Runs.GuardsCompared(s.runs[j], now);
  }

  lemma ApplyKeepsRun(g: Guard, s: Store, st: Statement, i: Uuid)
    requires Valid(s) && i in s.runs && st != DeleteRun(i, false)
    ensures i in Apply(g, s, st).runs && Runs.Accepted(s.runs[i], Apply(g, s, st).runs[i])
  {
    ReleaseIsAccepted(s.runs[i], {});
    match st
    case DeleteRow(root) =>
      DeletedKeepsRun(s, root, i);
    case UpdateRun(j, now) =>
      if RunUpdatable(g, s, j, now) { UpdateKeepsRun(g, s, j, now, i); }
    case _ =>
  }

  ghost function Execute(g: Guard, s: Store, sts: seq<Statement>): (r: Store)
    requires Valid(s)
    ensures Valid(r)
    decreases |sts|
  {
    if sts == [] then s
    else
      ApplyKeepsValid(g, s, sts[0]);
      Execute(g, Apply(g, s, sts[0]), sts[1..])
  }

  /** Over every sequence of statements, under either guard: a row is in its table exactly while
      the registry maps its id there with the table's kind, and unless a run is itself deleted it
      stays, its audit columns as inserted, and once terminal it only lets references go. */
  lemma {:induction false} RunsSurviveEverything(g: Guard, s: Store, sts: seq<Statement>, i: Uuid)
    requires Valid(s)
    ensures var after := Execute(g, s, sts);
      && Registered(after)
      && (i in s.runs && DeleteRun(i, false) !in sts ==>
            && i in after.runs && after.runs[i].audit == s.runs[i].audit
            && (Runs.Terminal(s.runs[i]) ==> Runs.ReleasesOnly(s.runs[i], after.runs[i])))
    decreases |sts|
  {
    if sts != [] {
      ApplyKeepsValid(g, s, sts[0]);
      RunsSurviveEverything(g, Apply(g, s, sts[0]), sts[1..], i);
      assert sts[0] in sts && forall st :: st in sts[1..] ==> st in sts;
      if i in s.runs && DeleteRun(i, false) !in sts { ApplyKeepsRun(g, s, sts[0], i); }
    }
  }

  lemma DocumentClosureTables(s: Store, d: Uuid, k: Key)
    requires Linked(s) && k in s.rows && Reached(s.rows, Key(Documents, d), k) && k != Key(Documents, d)
    ensures k.table in {Chapters, Paragraphs, SemanticChunks}
  {
    var p :| p in Parents(s.rows[k]) && Reached(s.rows, Key(Documents, d), p);
    assert Shaped(k, s.rows[k]);
  }

  /** The replacement guard never refuses a delete, so deleting a document always removes
      exactly its closure; the original refuses exactly when a terminal run points into it. */
  lemma DocumentDelete(s: Store, d: Uuid)
    requires Valid(s) && Key(Documents, d) in s.rows
    ensures var root := Key(Documents, d);
      && Apply(Releasing, s, DeleteRow(root)) == Deleted(s, root)
      && (forall k :: k in Deleted(s, root).rows <==> k in s.rows && !Reached(s.rows, root, k))
      && (forall k :: k in s.rows && Reached(s.rows, root, k) && k != root ==> k.table in {Chapters, Paragraphs, SemanticChunks})
      && (Apply(Original, s, DeleteRow(root)) == Deleted(s, root) <==>
            forall i :: i in s.runs && Runs.Terminal(s.runs[i]) ==> !PointsInto(s.runs[i], Closure(s, root)))
  {
    var root := Key(Documents, d);
    forall k | k in s.rows && Reached(s.rows, root, k) && k != root
      ensures k.table in {Chapters, Paragraphs, SemanticChunks}
    {
      DocumentClosureTables(s, d, k);
    }
    assert root in Closure(s, root);
    assert root !in Deleted(s, root).rows;
    assert GuardPermits(Releasing, s, root);
  }

  /** Deleting a document takes every row whose document it is and, besides, exactly the rows
      that name a row it takes. */
  lemma DocumentDeleteByColumn(s: Store, d: Uuid, k: Key)
    requires Valid(s) && Key(Documents, d) in s.rows
    ensures var after := Apply(Releasing, s, DeleteRow(Key(Documents, d))).rows;
      && Key(Documents, d) !in after
      && (k in after && after[k].ChapterRow? ==> after[k].document != d)
      && (k in after && after[k].ParagraphRow? ==> after[k].document != d)
      && (k in after && after[k].ChunkRow? ==> after[k].document != d)
      && (k in after ==> k in s.rows && after[k] == s.rows[k])
      && (k in s.rows && k != Key(Documents, d) ==> (k !in after <==> NamesGone(s.rows[k], s.rows, after)))
  {
    var root := Key(Documents, d);
    assert GuardPermits(Releasing, s, root);
    DeletedRowsByColumn(s, root, k);
    DeletedRowsByColumn(s, root, root);
  }

  /** The reference after rows have gone. */
  function Surviving(ref: Option<Uuid>, before: map<Key, Row>, after: map<Key, Row>, t: Table): Option<Uuid> {
    if ref.Some? && Gone(before, after, t, ref.value) then None else ref
  }

  /** Every run stays, and of its columns just the references to rows that are gone are cleared. */
  lemma RunsAfterDeleteByColumn(s: Store, root: Key, i: Uuid)
    requires Valid(s) && i in s.runs
    ensures var after, was := Apply(Releasing, s, DeleteRow(root)), s.runs[i];
      && i in after.runs && after.runs[i].audit == was.audit && after.runs[i].report == was.report
      && after.runs[i].scope.documentId == Surviving(was.scope.documentId, s.rows, after.rows, Documents)
      && after.runs[i].scope.chapterId == Surviving(was.scope.chapterId, s.rows, after.rows, Chapters)
      && after.runs[i].scope.chunkId == Surviving(was.scope.chunkId, s.rows, after.rows, SemanticChunks)
  {
    assert GuardPermits(Releasing, s, root);
    RunsDangleNowhere(s, i);
  }
}
