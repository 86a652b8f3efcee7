/**
  Source states and what they rest on: each is the payload of one assertion, produced by a
  run over the very original it restores.
 */
module SourceLineage {
  import opened Prelude
  import opened SourceBackfill
  import Runs = ProcessingRuns

  const SOURCE_STATE_FAMILY := "source_state"
  const EMPTY_MANIFEST := "{}"

  datatype Evidence = Evidence(
    manifest: string, locator: Option<string>, checksumAlgorithm: string, restorationSha256: string,
    reconstructedSha256: Option<string>, recordedEncoding: string, comparisonScope: string)

  datatype State = State(primarySource: Uuid, producedBy: Uuid, evidence: Evidence)

  /** Assertions are known here by their payload family alone. */
  datatype Chain = Chain(
    families: map<Uuid, string>,
    sources: map<Uuid, Source>,
    runs: map<Uuid, Runs.Run>,
    states: map<Uuid, State>)

  predicate EvidenceConstraints(e: Evidence) {
    && e.restorationSha256 != "" && e.recordedEncoding != "" && e.comparisonScope != ""
    && (e.manifest != EMPTY_MANIFEST || e.locator.Some?)
  }

  predicate Consumed(r: Runs.Run, source: Uuid) {
    r.audit.primarySourceId == Runs.Identity(source)
  }

  /** The run names its original among the stored ones. */
  predicate CitesStored(r: Runs.Run, sources: map<Uuid, Source>) {
    r.audit.primarySourceId.Identity? && r.audit.primarySourceId.id in sources
  }

  /** The state is the payload of an assertion of its family and rests on a stored original
      and a stored run that consumed this original. */
  predicate Rests(c: Chain, id: Uuid, s: State) {
    && id in c.families && c.families[id] == SOURCE_STATE_FAMILY
    && s.primarySource in c.sources && s.producedBy in c.runs
    && Consumed(c.runs[s.producedBy], s.primarySource)
  }

  ghost predicate RunsCite(c: Chain) {
    forall i :: i in c.runs ==> CitesStored(c.runs[i], c.sources)
  }

  ghost predicate StatesRest(c: Chain) {
    forall a :: a in c.states ==> Rests(c, a, c.states[a]) && EvidenceConstraints(c.states[a].evidence)
  }

  ghost predicate RowsConstrained(c: Chain) {
    && (forall i :: i in c.runs ==> Runs.RunConstraints(c.runs[i]) && c.runs[i].audit.runId == i)
    && (forall s :: s in c.sources ==> SourceConstraints(c.sources[s]))
  }

  /** Runs cite stored originals, states rest on what they name, and every row meets its
      constraints. */
  ghost predicate Valid(c: Chain) {
    RunsCite(c) && StatesRest(c) && RowsConstrained(c)
  }

  datatype Statement =
    | InsertSource(id: Uuid, source: Source)
    | UpdateSource(id: Uuid, source: Source)
    | DeleteSource(id: Uuid)
    | InsertAssertion(id: Uuid, family: string)
    | DeleteAssertion(id: Uuid)
    | InsertRun(id: Uuid, run: Runs.Run)
    | UpdateRun(id: Uuid, run: Runs.Run)
    | DeleteRun(id: Uuid)
    | InsertState(id: Uuid, state: State)
    | UpdateState(id: Uuid, state: State)

  /** The guard on a new state says nothing about rows that are missing; the keys refuse those. */
  predicate GuardAdmits(c: Chain, id: Uuid, s: State) {
    id in c.families ==>
      && c.families[id] == SOURCE_STATE_FAMILY
      && (s.producedBy in c.runs ==> Consumed(c.runs[s.producedBy], s.primarySource))
  }

  predicate StateInsertable(c: Chain, id: Uuid, s: State) {
    && GuardAdmits(c, id, s) && EvidenceConstraints(s.evidence) && id !in c.states
    && id in c.families && s.primarySource in c.sources && s.producedBy in c.runs
  }

  predicate RunInsertable(c: Chain, id: Uuid, r: Runs.Run) {
    && id !in c.runs && Runs.RunConstraints(r) && r.audit.runId == id
    && CitesStored(r, c.sources)
  }

  /** RESTRICT: an original goes only when no run and no state cites it. */
  predicate SourceFree(c: Chain, id: Uuid) {
    (forall i | i in c.runs :: !Consumed(c.runs[i], id)) && (forall a | a in c.states :: c.states[a].primarySource != id)
  }

  predicate RunFree(c: Chain, id: Uuid) {
    forall a | a in c.states :: c.states[a].producedBy != id
  }

  /** The effect of one statement; a refused statement has none. */
  function Apply(c: Chain, st: Statement): Chain {
    match st
    case InsertSource(id, s) =>
      if id !in c.sources && SourceConstraints(s) then c.(sources := c.sources[id := s]) else c
    case UpdateSource(id, s) => c
    case DeleteSource(id) => if SourceFree(c, id) then c.(sources := c.sources - {id}) else c
    case InsertAssertion(id, family) => if id !in c.families then c.(families := c.families[id := family]) else c
    case DeleteAssertion(id) => c.(families := c.families - {id}, states := c.states - {id})
    case InsertRun(id, r) => if RunInsertable(c, id, r) then c.(runs := c.runs[id := r]) else c
    case UpdateRun(id, r) =>
      if id in c.runs && Runs.RunConstraints(r) && Runs.Accepted(c.runs[id], r) then c.(runs := c.runs[id := r]) else c
    case DeleteRun(id) => if RunFree(c, id) then c.(runs := c.runs - {id}) else c
    case InsertState(id, s) => if StateInsertable(c, id, s) then c.(states := c.states[id := s]) else c
    case UpdateState(id, s) => c
  }

  function Execute(c: Chain, sts: seq<Statement>): Chain
    decreases |sts|
  {
    if sts == [] then c else Execute(Apply(c, sts[0]), sts[1..])
  }

  // ---------- the state and source tables as they are written ----------

  /** The ladder over the payload columns, which names the first one an update changes. */
  datatype StateColumn =
    | PrimarySourceId | ProducedByRunId | Manifest | ReconstructionLocator | ChecksumAlgorithm
    | RestorationSha256 | ReconstructedSha256 | RecordedEncoding | ComparisonScope

  predicate Changes(col: StateColumn, was: State, now: State) {
    match col
    case PrimarySourceId => now.primarySource != was.primarySource
    case ProducedByRunId => now.producedBy != was.producedBy
    case Manifest => now.evidence.manifest != was.evidence.manifest
    case ReconstructionLocator => now.evidence.locator != was.evidence.locator
    case ChecksumAlgorithm => now.evidence.checksumAlgorithm != was.evidence.checksumAlgorithm
    case RestorationSha256 => now.evidence.restorationSha256 != was.evidence.restorationSha256
    case ReconstructedSha256 => now.evidence.reconstructedSha256 != was.evidence.reconstructedSha256
    case RecordedEncoding => now.evidence.recordedEncoding != was.evidence.recordedEncoding
    case ComparisonScope => now.evidence.comparisonScope != was.evidence.comparisonScope
  }

  /** A rewrite of a state is let through exactly when it rewrites nothing. */
  method StateAppendOnly(was: State, now: State) returns (offending: Option<StateColumn>)
    ensures offending.None? <==> now == was
    ensures offending.Some? ==> Changes(offending.value, was, now)
  {
    if now.primarySource != was.primarySource { offending := Some(PrimarySourceId); }
    else if now.producedBy != was.producedBy { offending := Some(ProducedByRunId); }
    else if now.evidence.manifest != was.evidence.manifest { offending := Some(Manifest); }
    else if now.evidence.locator != was.evidence.locator { offending := Some(ReconstructionLocator); }
    else if now.evidence.checksumAlgorithm != was.evidence.checksumAlgorithm { offending := Some(ChecksumAlgorithm); }
    else if now.evidence.restorationSha256 != was.evidence.restorationSha256 { offending := Some(RestorationSha256); }
    else if now.evidence.reconstructedSha256 != was.evidence.reconstructedSha256 { offending := Some(ReconstructedSha256); }
    else if now.evidence.recordedEncoding != was.evidence.recordedEncoding { offending := Some(RecordedEncoding); }
    else if now.evidence.comparisonScope != was.evidence.comparisonScope { offending := Some(ComparisonScope); }
    else { offending := None; }
  }

  // ---------- the evidence chain ----------

  lemma AcceptedKeepsAudit(was: Runs.Run, now: Runs.Run)
    requires Runs.Accepted(was, now)
    ensures now.audit == was.audit
  {
  }

  /** One statement leaves a state and all it rests on as they were, or removes its assertion. */
  lemma ApplyKeepsEvidence(c: Chain, st: Statement, a: Uuid)
    requires StatesRest(c) && a in c.states
    ensures var after, s := Apply(c, st), c.states[a];
      if st == DeleteAssertion(a) then a !in after.states
      else
        && a in after.states && after.states[a] == s && Rests(after, a, s)
        && after.sources[s.primarySource] == c.sources[s.primarySource]
        && after.runs[s.producedBy].audit == c.runs[s.producedBy].audit
  {
    assert Rests(c, a, c.states[a]);
    if st.UpdateRun? && st.id in c.runs && Runs.Accepted(c.runs[st.id], st.run) {
      AcceptedKeepsAudit(c.runs[st.id], st.run);
    }
  }

  lemma ApplyKeepsStatesRest(c: Chain, st: Statement)
    requires StatesRest(c)
    ensures StatesRest(Apply(c, st))
  {
    var after := Apply(c, st);
    forall a | a in after.states
      ensures Rests(after, a, after.states[a]) && EvidenceConstraints(after.states[a].evidence)
    {
      if a in c.states { ApplyKeepsEvidence(c, st, a); }
    }
  }

  lemma ApplyKeepsRunsCite(c: Chain, st: Statement)
    requires RunsCite(c)
    ensures RunsCite(Apply(c, st))
  {
    if st.UpdateRun? && st.id in c.runs && Runs.Accepted(c.runs[st.id], st.run) {
      AcceptedKeepsAudit(c.runs[st.id], st.run);
    }
    if st.DeleteSource? {
      forall i | i in Apply(c, st).runs ensures CitesStored(c.runs[i], Apply(c, st).sources) {
        assert CitesStored(c.runs[i], c.sources);
      }
    }
  }

  lemma ApplyKeepsRowsConstrained(c: Chain, st: Statement)
    requires RowsConstrained(c)
    ensures RowsConstrained(Apply(c, st))
  {
    if st.UpdateRun? && st.id in c.runs && Runs.Accepted(c.runs[st.id], st.run) {
      AcceptedKeepsAudit(c.runs[st.id], st.run);
    }
  }

  lemma ApplyKeepsValid(c: Chain, st: Statement)
    requires Valid(c)
    ensures Valid(Apply(c, st))
  {
    ApplyKeepsStatesRest(c, st);
    ApplyKeepsRunsCite(c, st);
    ApplyKeepsRowsConstrained(c, st);
  }

  // ---------- what is refused ----------

  /** Whether a state is taken, column by column. */
  lemma StateInsertableIff(c: Chain, id: Uuid, s: State)
    ensures StateInsertable(c, id, s) <==>
      && id !in c.states && id in c.families && c.families[id] == "source_state"
      && s.primarySource in c.sources && s.producedBy in c.runs
      && c.runs[s.producedBy].audit.primarySourceId == Runs.Identity(s.primarySource)
      && s.evidence.restorationSha256 != "" && s.evidence.recordedEncoding != "" && s.evidence.comparisonScope != ""
      && (s.evidence.manifest == "{}" ==> s.evidence.locator.Some?)
  {
  }

  /** In a valid chain a row is taken exactly when its key is new and the chain with it is valid,
      and a source or a run is given up exactly when the chain without it is. */
  lemma TakenIffValid(c: Chain, id: Uuid, s: State, r: Runs.Run, source: Source)
    requires Valid(c)
    ensures Apply(c, InsertState(id, s)) ==
      if id !in c.states && Valid(c.(states := c.states[id := s])) then c.(states := c.states[id := s]) else c
    ensures Apply(c, InsertRun(id, r)) ==
      if id !in c.runs && Valid(c.(runs := c.runs[id := r])) then c.(runs := c.runs[id := r]) else c
    ensures Apply(c, InsertSource(id, source)) ==
      if id !in c.sources && Valid(c.(sources := c.sources[id := source])) then c.(sources := c.sources[id := source]) else c
    ensures Apply(c, DeleteSource(id)) ==
      if Valid(c.(sources := c.sources - {id})) then c.(sources := c.sources - {id}) else c
    ensures Apply(c, DeleteRun(id)) == if Valid(c.(runs := c.runs - {id})) then c.(runs := c.runs - {id}) else c
  {
    StateTakenIff(c, id, s);
    RunTakenIff(c, id, r);
    SourceTakenIff(c, id, source);
    SourceFreeIff(c, id);
    RunFreeIff(c, id);
  }

  /** Originals and states are never rewritten, and a run only as its guard allows and the chain
      stays valid. */
  lemma RewrittenIffValid(c: Chain, id: Uuid, s: State, r: Runs.Run, source: Source)
    requires Valid(c)
    ensures Apply(c, UpdateSource(id, source)) == c && Apply(c, UpdateState(id, s)) == c
    ensures Apply(c, UpdateRun(id, r)) ==
      if id in c.runs && Runs.Accepted(c.runs[id], r) && Valid(c.(runs := c.runs[id := r]))
      then c.(runs := c.runs[id := r]) else c
  {
    var after := c.(runs := c.runs[id := r]);
    if id in c.runs && Runs.Accepted(c.runs[id], r) {
      if Runs.RunConstraints(r) { ApplyKeepsValid(c, UpdateRun(id, r)); }
      if Valid(after) { assert id in after.runs && after.runs[id] == r; }
    }
  }

  /** An assertion enters with its family if it is new, and leaves with its state alone. */
  lemma AssertionsComeAndGo(c: Chain, id: Uuid, family: string, a: Uuid)
    ensures var after := Apply(c, InsertAssertion(id, family));
      && after == c.(families := after.families)
      && (a in after.families <==> a in c.families || a == id)
      && (a in after.families ==> after.families[a] == if a in c.families then c.families[a] else family)
    ensures var after := Apply(c, DeleteAssertion(id));
      && after == c.(families := after.families, states := after.states)
      && (a in after.families <==> a in c.families && a != id) && (a in after.states <==> a in c.states && a != id)
      && (a in after.families ==> after.families[a] == c.families[a])
      && (a in after.states ==> after.states[a] == c.states[a])
  {
  }

  lemma StateTakenIff(c: Chain, id: Uuid, s: State)
    requires Valid(c)
    ensures StateInsertable(c, id, s) <==> id !in c.states && Valid(c.(states := c.states[id := s]))
  {
    var after := c.(states := c.states[id := s]);
    assert after.states[id] == s;
    if StateInsertable(c, id, s) { ApplyKeepsValid(c, InsertState(id, s)); }
    if Valid(after) { assert Rests(after, id, s) && EvidenceConstraints(s.evidence); }
  }

  lemma RunTakenIff(c: Chain, id: Uuid, r: Runs.Run)
    requires Valid(c)
    ensures RunInsertable(c, id, r) <==> id !in c.runs && Valid(c.(runs := c.runs[id := r]))
  {
    var after := c.(runs := c.runs[id := r]);
    assert after.runs[id] == r;
    if RunInsertable(c, id, r) { ApplyKeepsValid(c, InsertRun(id, r)); }
    if Valid(after) { assert CitesStored(r, c.sources); }
  }

  lemma SourceTakenIff(c: Chain, id: Uuid, source: Source)
    requires Valid(c)
    ensures id !in c.sources ==> (SourceConstraints(source) <==> Valid(c.(sources := c.sources[id := source])))
  {
    var after := c.(sources := c.sources[id := source]);
    assert after.sources[id] == source;
    if id !in c.sources && SourceConstraints(source) { ApplyKeepsValid(c, InsertSource(id, source)); }
  }

  lemma SourceFreeIff(c: Chain, id: Uuid)
    requires Valid(c)
    ensures SourceFree(c, id) <==> Valid(c.(sources := c.sources - {id}))
  {
    var after := c.(sources := c.sources - {id});
    if SourceFree(c, id) { ApplyKeepsValid(c, DeleteSource(id)); }
    if Valid(after) {
      forall i | i in c.runs ensures !Consumed(c.runs[i], id) { assert CitesStored(after.runs[i], after.sources); }
      forall a | a in c.states ensures c.states[a].primarySource != id { assert Rests(after, a, after.states[a]); }
    }
  }

  lemma RunFreeIff(c: Chain, id: Uuid)
    requires Valid(c)
    ensures RunFree(c, id) <==> Valid(c.(runs := c.runs - {id}))
  {
    var after := c.(runs := c.runs - {id});
    if RunFree(c, id) { ApplyKeepsValid(c, DeleteRun(id)); }
    if Valid(after) {
      forall a | a in c.states ensures c.states[a].producedBy != id { assert Rests(after, a, after.states[a]); }
    }
  }

  /** Over every sequence of statements the chain of evidence never forks: each state rests on
      a run over the original it restores, and while its assertion stands, the state, its
      original and the audit of its run are as they were when it was recorded. */
  lemma {:induction false} EvidenceNeverForks(c: Chain, sts: seq<Statement>, a: Uuid)
    requires Valid(c)
    ensures Valid(Execute(c, sts))
    ensures a in c.states && DeleteAssertion(a) !in sts ==>
      var after, s := Execute(c, sts), c.states[a];
        && a in after.states && after.states[a] == s && Rests(after, a, s)
        && after.sources[s.primarySource] == c.sources[s.primarySource]
        && after.runs[s.producedBy].audit == c.runs[s.producedBy].audit
    decreases |sts|
  {
    if sts == [] {
      assert a in c.states ==> Rests(c, a, c.states[a]);
    } else {
      ApplyKeepsValid(c, sts[0]);
      EvidenceNeverForks(Apply(c, sts[0]), sts[1..], a);
      assert sts[0] in sts && forall st :: st in sts[1..] ==> st in sts;
      if a in c.states { ApplyKeepsEvidence(c, sts[0], a); }
    }
  }
}
