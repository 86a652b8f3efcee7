/**
  Processing runs: the constraints on a run row and the two generations of the guard
  that keeps a run's history immutable.
 */
module ProcessingRuns {
  import opened Prelude

  datatype Value = Null | Text(text: string) | Number(number: int) | Identity(id: Uuid)

  /** What the run consumed, under which configuration, for whom and when it was recorded. */
  datatype Audit = Audit(
    runId: Uuid, primarySourceId: Value, runKind: Value, comparisonScope: Value, actor: Value,
    configurationHash: Value, normalizationProfileId: Value, normalizationProfileVersion: Value,
    normalizationParameters: Value, createdAt: Value)

  /** How the run went. */
  datatype Report = Report(
    status: Value, sourceEncoding: Value, reconstructedEncoding: Value, checksumAlgorithm: Value,
    sourceSha256: Value, reconstructionSha256: Value, integrityOutcome: Value,
    firstDifferenceOffset: Value, mismatchSpanId: Value, diagnosticAuthorization: Value,
    redactionPolicy: Value, operationId: Value, processingTraceId: Value, startedAt: Value, completedAt: Value)

  /** Which hierarchy rows the run still points at. */
  datatype Scope = Scope(documentId: Option<Uuid>, chapterId: Option<Uuid>, chunkId: Option<Uuid>)

  datatype Run = Run(audit: Audit, report: Report, scope: Scope)

  // ---------- the row as the triggers see it, column by column ----------

  datatype AuditColumn =
    | RunId | PrimarySourceId | RunKind | ComparisonScope | Actor | ConfigurationHash
    | NormalizationProfileId | NormalizationProfileVersion | NormalizationParameters | CreatedAt

  datatype ReportColumn =
    | Status | SourceEncoding | ReconstructedEncoding | ChecksumAlgorithm | SourceSha256
    | ReconstructionSha256 | IntegrityOutcome | FirstDifferenceOffset | MismatchSpanId
    | DiagnosticAuthorization | RedactionPolicy | OperationId | ProcessingTraceId | StartedAt | CompletedAt

  datatype ScopeColumn = DocumentId | ChapterId | ChunkId

  datatype Column = A(audit: AuditColumn) | R(report: ReportColumn) | S(scope: ScopeColumn)

  function AuditValue(a: Audit, c: AuditColumn): Value {
    match c
    case RunId => Identity(a.runId)
    case PrimarySourceId => a.primarySourceId
    case RunKind => a.runKind
    case ComparisonScope => a.comparisonScope
    case Actor => a.actor
    case ConfigurationHash => a.configurationHash
    case NormalizationProfileId => a.normalizationProfileId
    case NormalizationProfileVersion => a.normalizationProfileVersion
    case NormalizationParameters => a.normalizationParameters
    case CreatedAt => a.createdAt
  }

  function ReportValue(r: Report, c: ReportColumn): Value {
    match c
    case Status => r.status
    case SourceEncoding => r.sourceEncoding
    case ReconstructedEncoding => r.reconstructedEncoding
    case ChecksumAlgorithm => r.checksumAlgorithm
    case SourceSha256 => r.sourceSha256
    case ReconstructionSha256 => r.reconstructionSha256
    case IntegrityOutcome => r.integrityOutcome
    case FirstDifferenceOffset => r.firstDifferenceOffset
    case MismatchSpanId => r.mismatchSpanId
    case DiagnosticAuthorization => r.diagnosticAuthorization
    case RedactionPolicy => r.redactionPolicy
    case OperationId => r.operationId
    case ProcessingTraceId => r.processingTraceId
    case StartedAt => r.startedAt
    case CompletedAt => r.completedAt
  }

  function Reference(r: Option<Uuid>): Value {
    if r.Some? then Identity(r.value) else Null
  }

  function ScopeValue(s: Scope, c: ScopeColumn): Value {
    match c
    case DocumentId => Reference(s.documentId)
    case ChapterId => Reference(s.chapterId)
    case ChunkId => Reference(s.chunkId)
  }

  function Get(r: Run, c: Column): Value {
    match c
    case A(a) => AuditValue(r.audit, a)
    case R(p) => ReportValue(r.report, p)
    case S(s) => ScopeValue(r.scope, s)
  }

  /** Every column of the table, in declaration order. */
  const ROW_COLUMNS: seq<Column> := [
    A(RunId), A(PrimarySourceId), A(RunKind), A(ComparisonScope), A(Actor), R(Status),
    A(ConfigurationHash), A(NormalizationProfileId), A(NormalizationProfileVersion),
    A(NormalizationParameters), R(SourceEncoding), R(ReconstructedEncoding), R(ChecksumAlgorithm),
    R(SourceSha256), R(ReconstructionSha256), R(IntegrityOutcome), R(FirstDifferenceOffset),
    R(MismatchSpanId), R(DiagnosticAuthorization), R(RedactionPolicy), S(DocumentId), S(ChapterId),
    S(ChunkId), R(OperationId), R(ProcessingTraceId), R(StartedAt), R(CompletedAt), A(CreatedAt)]

  const SCOPE_COLUMNS: seq<Column> := [S(DocumentId), S(ChapterId), S(ChunkId)]

  const AUDIT_COLUMNS: seq<Column> := [
    A(RunId), A(PrimarySourceId), A(RunKind), A(ComparisonScope), A(Actor), A(ConfigurationHash),
    A(NormalizationProfileId), A(NormalizationProfileVersion), A(NormalizationParameters), A(CreatedAt)]

  const TERMINAL_STATUSES: seq<Value> := [Text("succeeded"), Text("failed"), Text("aborted")]

  predicate Terminal(r: Run) {
    r.report.status in TERMINAL_STATUSES
  }

  /** A run has ended once it succeeded, failed or was aborted, and in no other status. */
  lemma TerminalByWord(r: Run)
    ensures Terminal(r) <==> r.report.status in {Text("succeeded"), Text("failed"), Text("aborted")}
  {
    assert TERMINAL_STATUSES[0] == Text("succeeded") && TERMINAL_STATUSES[1] == Text("failed");
    assert TERMINAL_STATUSES[2] == Text("aborted");
  }

  /** The columns outside a given list; a column added to the table is covered by default. */
  function Without(columns: seq<Column>, dropped: seq<Column>): (kept: seq<Column>)
    ensures forall c :: c in kept <==> c in columns && c !in dropped
  {
    if columns == [] then []
    else if columns[0] in dropped then Without(columns[1..], dropped)
    else [columns[0]] + Without(columns[1..], dropped)
  }

  ghost predicate SameOn(columns: seq<Column>, was: Run, now: Run) {
    forall c :: c in columns ==> Get(now, c) == Get(was, c)
  }

  lemma AuditColumnIsListed(c: AuditColumn)
    ensures A(c) in AUDIT_COLUMNS && A(c) in ROW_COLUMNS
  {
    var i, j := match c
      case RunId => 0
      case PrimarySourceId => 1
      case RunKind => 2
      case ComparisonScope => 3
      case Actor => 4
      case ConfigurationHash => 5
      case NormalizationProfileId => 6
      case NormalizationProfileVersion => 7
      case NormalizationParameters => 8
      case CreatedAt => 9, match c
      case RunId => 0
      case PrimarySourceId => 1
      case RunKind => 2
      case ComparisonScope => 3
      case Actor => 4
      case ConfigurationHash => 6
      case NormalizationProfileId => 7
      case NormalizationProfileVersion => 8
      case NormalizationParameters => 9
      case CreatedAt => 27;
    assert AUDIT_COLUMNS[i] == A(c);
    assert ROW_COLUMNS[j] == A(c);
  }

  lemma ReportColumnIsListed(c: ReportColumn)
    ensures R(c) in ROW_COLUMNS
  {
    var i := match c
      case Status => 5
      case SourceEncoding => 10
      case ReconstructedEncoding => 11
      case ChecksumAlgorithm => 12
      case SourceSha256 => 13
      case ReconstructionSha256 => 14
      case IntegrityOutcome => 15
      case FirstDifferenceOffset => 16
      case MismatchSpanId => 17
      case DiagnosticAuthorization => 18
      case RedactionPolicy => 19
      case OperationId => 23
      case ProcessingTraceId => 24
      case StartedAt => 25
      case CompletedAt => 26;
    assert ROW_COLUMNS[i] == R(c);
  }

  lemma SameAuditValues(a: Audit, b: Audit)
    requires forall c :: AuditValue(a, c) == AuditValue(b, c)
    ensures a == b
  {
    assert AuditValue(a, RunId) == AuditValue(b, RunId);
    assert AuditValue(a, PrimarySourceId) == AuditValue(b, PrimarySourceId);
    assert AuditValue(a, RunKind) == AuditValue(b, RunKind);
    assert AuditValue(a, ComparisonScope) == AuditValue(b, ComparisonScope);
    assert AuditValue(a, Actor) == AuditValue(b, Actor);
    assert AuditValue(a, ConfigurationHash) == AuditValue(b, ConfigurationHash);
    assert AuditValue(a, NormalizationProfileId) == AuditValue(b, NormalizationProfileId);
    assert AuditValue(a, NormalizationProfileVersion) == AuditValue(b, NormalizationProfileVersion);
    assert AuditValue(a, NormalizationParameters) == AuditValue(b, NormalizationParameters);
    assert AuditValue(a, CreatedAt) == AuditValue(b, CreatedAt);
  }

  lemma SameReportValues(a: Report, b: Report)
    requires forall c :: ReportValue(a, c) == ReportValue(b, c)
    ensures a == b
  {
    assert ReportValue(a, Status) == ReportValue(b, Status);
    assert ReportValue(a, SourceEncoding) == ReportValue(b, SourceEncoding);
    assert ReportValue(a, ReconstructedEncoding) == ReportValue(b, ReconstructedEncoding);
    assert ReportValue(a, ChecksumAlgorithm) == ReportValue(b, ChecksumAlgorithm);
    assert ReportValue(a, SourceSha256) == ReportValue(b, SourceSha256);
    assert ReportValue(a, ReconstructionSha256) == ReportValue(b, ReconstructionSha256);
    assert ReportValue(a, IntegrityOutcome) == ReportValue(b, IntegrityOutcome);
    assert ReportValue(a, FirstDifferenceOffset) == ReportValue(b, FirstDifferenceOffset);
    assert ReportValue(a, MismatchSpanId) == ReportValue(b, MismatchSpanId);
    assert ReportValue(a, DiagnosticAuthorization) == ReportValue(b, DiagnosticAuthorization);
    assert ReportValue(a, RedactionPolicy) == ReportValue(b, RedactionPolicy);
    assert ReportValue(a, OperationId) == ReportValue(b, OperationId);
    assert ReportValue(a, ProcessingTraceId) == ReportValue(b, ProcessingTraceId);
    assert ReportValue(a, StartedAt) == ReportValue(b, StartedAt);
    assert ReportValue(a, CompletedAt) == ReportValue(b, CompletedAt);
  }

  lemma SameAuditColumns(was: Run, now: Run)
    ensures SameOn(AUDIT_COLUMNS, was, now) <==> now.audit == was.audit
  {
    if SameOn(AUDIT_COLUMNS, was, now) {
      forall c ensures AuditValue(now.audit, c) == AuditValue(was.audit, c) {
        AuditColumnIsListed(c);
        assert Get(now, A(c)) == Get(was, A(c));
      }
      SameAuditValues(now.audit, was.audit);
    }
    if now.audit == was.audit {
      forall c | c in AUDIT_COLUMNS ensures Get(now, c) == Get(was, c) {
        assert c.A?;
      }
    }
  }

  /** All columns but the references agree exactly when the audit and the report do. */
  lemma SameOtherColumns(others: seq<Column>, was: Run, now: Run)
    requires forall c :: c in others <==> c in ROW_COLUMNS && c !in SCOPE_COLUMNS
    ensures SameOn(others, was, now) <==> now.audit == was.audit && now.report == was.report
  {
    forall c ensures c in SCOPE_COLUMNS <==> c.S? {
      if c.S? {
        assert c.scope == DocumentId || c.scope == ChapterId || c.scope == ChunkId;
        assert SCOPE_COLUMNS[0] == S(DocumentId) && SCOPE_COLUMNS[1] == S(ChapterId) && SCOPE_COLUMNS[2] == S(ChunkId);
      }
    }
    if SameOn(others, was, now) {
      forall c ensures AuditValue(now.audit, c) == AuditValue(was.audit, c) {
        AuditColumnIsListed(c);
        assert Get(now, A(c)) == Get(was, A(c));
      }
      forall c ensures ReportValue(now.report, c) == ReportValue(was.report, c) {
        ReportColumnIsListed(c);
        assert Get(now, R(c)) == Get(was, R(c));
      }
      SameAuditValues(now.audit, was.audit);
      SameReportValues(now.report, was.report);
    }
  }

  // ---------- what the guards accept ----------

  /** A reference is untouched or let go. */
  predicate SameOrGone(was: Option<Uuid>, now: Option<Uuid>) {
    now == was || now.None?
  }

  /** Nothing changes but references, and those are only let go. */
  predicate ReleasesOnly(was: Run, now: Run) {
    && now.audit == was.audit && now.report == was.report
    && SameOrGone(was.scope.documentId, now.scope.documentId)
    && SameOrGone(was.scope.chapterId, now.scope.chapterId)
    && SameOrGone(was.scope.chunkId, now.scope.chunkId)
  }

  predicate AcceptedOriginally(was: Run, now: Run) {
    !Terminal(was) && now.audit == was.audit
  }

  predicate Accepted(was: Run, now: Run) {
    if Terminal(was) then ReleasesOnly(was, now) else now.audit == was.audit
  }

  // ---------- the guards ----------

  /** The generated ladder: the first listed column that the update changes. */
  method FirstDistinct(columns: seq<Column>, was: Run, now: Run) returns (offending: Option<Column>)
    ensures offending.None? <==> SameOn(columns, was, now)
    ensures offending.Some? ==>
      exists i :: 0 <= i < |columns| && columns[i] == offending.value
        && Get(now, columns[i]) != Get(was, columns[i]) && SameOn(columns[..i], was, now)
  {
    for i := 0 to |columns|
      invariant SameOn(columns[..i], was, now)
    {
      if Get(now, columns[i]) != Get(was, columns[i]) {
        return Some(columns[i]);
      }
      assert columns[..i + 1] == columns[..i] + [columns[i]];
    }
    assert columns[..|columns|] == columns;
    return None;
  }

  /** The guard as first installed: a terminal run refuses every update. */
  method OriginalGuard(was: Run, now: Run) returns (ok: bool)
    ensures ok <==> AcceptedOriginally(was, now)
    ensures was.report.status in {Text("succeeded"), Text("failed"), Text("aborted")} ==> !ok
    ensures was.report.status in {Text("pending"), Text("running")} ==>
      (ok <==> now.audit == was.audit)
  {
    TerminalByWord(was);
    if Terminal(was) {
      return false;
    }
    var offending := FirstDistinct(AUDIT_COLUMNS, was, now);
    SameAuditColumns(was, now);
    return offending.None?;
  }

  predicate Releasing(was: Value, now: Value) {
    now == was || (was != Null && now == Null)
  }

  method NonReferenceColumns() returns (others: seq<Column>)
    ensures forall c :: c in others <==> c in ROW_COLUMNS && c !in SCOPE_COLUMNS
  {
    others := Without(ROW_COLUMNS, SCOPE_COLUMNS);
  }

  /** The replacement: a terminal run accepts an update that only lets references go. */
  method ReleasingGuard(was: Run, now: Run) returns (ok: bool)
    ensures ok <==> Accepted(was, now)
    ensures was.report.status in {Text("succeeded"), Text("failed"), Text("aborted")} ==>
      (ok <==>
        && now.audit == was.audit && now.report == was.report
        && (now.scope.documentId == was.scope.documentId || now.scope.documentId.None?)
        && (now.scope.chapterId == was.scope.chapterId || now.scope.chapterId.None?)
        && (now.scope.chunkId == was.scope.chunkId || now.scope.chunkId.None?))
    ensures was.report.status in {Text("pending"), Text("running")} ==>
      (ok <==> now.audit == was.audit)
  {
    TerminalByWord(was);
    var releasingScopeOnly :=
      && Releasing(ScopeValue(was.scope, DocumentId), ScopeValue(now.scope, DocumentId))
      && Releasing(ScopeValue(was.scope, ChapterId), ScopeValue(now.scope, ChapterId))
      && Releasing(ScopeValue(was.scope, ChunkId), ScopeValue(now.scope, ChunkId));
    var others := NonReferenceColumns();
    var offending := FirstDistinct(others, was, now);
    SameOtherColumns(others, was, now);
    if offending.Some? {
      releasingScopeOnly := false;
    }
    if Terminal(was) && !releasingScopeOnly {
      return false;
    }
    offending := FirstDistinct(AUDIT_COLUMNS, was, now);
    SameAuditColumns(was, now);
    return offending.None?;
  }

  /** The replacement accepts what the original did, and beyond that exactly the updates of
      terminal runs that only release references. */
  lemma GuardsCompared(was: Run, now: Run)
    ensures Accepted(was, now) <==> AcceptedOriginally(was, now) || (Terminal(was) && ReleasesOnly(was, now))
    ensures !Terminal(was) ==> (Accepted(was, now) <==> AcceptedOriginally(was, now))
  {
  }

  // ---------- constraints, in SQL's three-valued logic ----------

  datatype Truth = True | False | Unknown

  function Or(a: Truth, b: Truth): Truth {
    if a == True || b == True then True else if a == Unknown || b == Unknown then Unknown else False
  }

  function And(a: Truth, b: Truth): Truth {
    if a == False || b == False then False else if a == Unknown || b == Unknown then Unknown else True
  }

  function Known(b: bool): Truth {
    if b then True else False
  }

  function Equals(a: Value, b: Value): Truth {
    if a == Null || b == Null then Unknown else Known(a == b)
  }

  function Differs(a: Value, b: Value): Truth {
    if a == Null || b == Null then Unknown else Known(a != b)
  }

  function AtLeast(a: Value, b: Value): Truth {
    if a.Number? && b.Number? then Known(a.number >= b.number) else Unknown
  }

  function Among(a: Value, listed: seq<Value>): Truth {
    if a == Null then Unknown else Known(a in listed)
  }

  function IsNull(a: Value): Truth {
    Known(a == Null)
  }

  function IsNotNull(a: Value): Truth {
    Known(a != Null)
  }

  const RUN_KINDS: seq<Value> :=
    [Text("document_create"), Text("document_update"), Text("file_ingest"), Text("integrity_recheck")]
  const STATUSES: seq<Value> :=
    [Text("pending"), Text("running"), Text("succeeded"), Text("failed"), Text("aborted")]
  const OUTCOMES: seq<Value> := [Text("match"), Text("mismatch"), Text("length_boundary")]

  function SucceedsOnlyOnEqualHashes(r: Report): Truth {
    Or(Differs(r.status, Text("succeeded")),
       And(Equals(r.integrityOutcome, Text("match")),
       And(IsNotNull(r.sourceSha256),
       And(IsNotNull(r.reconstructionSha256),
           Equals(r.sourceSha256, r.reconstructionSha256)))))
  }

  function NonMatchCarriesEvidence(r: Report): Truth {
    Or(IsNull(r.integrityOutcome),
    Or(Equals(r.integrityOutcome, Text("match")),
       And(IsNotNull(r.sourceSha256),
       And(IsNotNull(r.reconstructionSha256),
           Or(IsNotNull(r.firstDifferenceOffset), IsNotNull(r.mismatchSpanId))))))
  }

  function IntervalOrdered(r: Report): Truth {
    Or(IsNull(r.completedAt), And(IsNotNull(r.startedAt), AtLeast(r.completedAt, r.startedAt)))
  }

  predicate AuditConstraints(a: Audit) {
    && a.primarySourceId != Null && a.runKind != Null && a.comparisonScope != Null && a.actor != Null
    && a.configurationHash != Null && a.normalizationProfileId != Null && a.normalizationProfileVersion != Null
    && a.normalizationParameters != Null && a.createdAt != Null
    && Among(a.runKind, RUN_KINDS) != False
    && Differs(a.actor, Text("")) != False
    && Differs(a.comparisonScope, Text("")) != False
    && Differs(a.configurationHash, Text("")) != False
    && And(Differs(a.normalizationProfileId, Text("")), Differs(a.normalizationProfileVersion, Text(""))) != False
  }

  /** A CHECK is violated only by FALSE; an unknown verdict passes. */
  predicate ReportConstraints(r: Report) {
    && r.status != Null && r.checksumAlgorithm != Null
    && Among(r.status, STATUSES) != False
    && Or(IsNull(r.integrityOutcome), Among(r.integrityOutcome, OUTCOMES)) != False
    && SucceedsOnlyOnEqualHashes(r) != False
    && NonMatchCarriesEvidence(r) != False
    && Or(IsNull(r.firstDifferenceOffset), AtLeast(r.firstDifferenceOffset, Number(0))) != False
    && IntervalOrdered(r) != False
  }

  predicate RunConstraints(r: Run) {
    AuditConstraints(r.audit) && ReportConstraints(r.report)
  }

  /** The audit constraints in plain logic, by column. */
  lemma AuditConstraintsByColumn(a: Audit)
    ensures AuditConstraints(a) <==>
      && a.primarySourceId != Null && a.normalizationParameters != Null && a.createdAt != Null
      && (a.runKind == Text("document_create") || a.runKind == Text("document_update")
          || a.runKind == Text("file_ingest") || a.runKind == Text("integrity_recheck"))
      && a.comparisonScope != Null && a.comparisonScope != Text("")
      && a.actor != Null && a.actor != Text("")
      && a.configurationHash != Null && a.configurationHash != Text("")
      && a.normalizationProfileId != Null && a.normalizationProfileId != Text("")
      && a.normalizationProfileVersion != Null && a.normalizationProfileVersion != Text("")
  {
    assert RUN_KINDS[0] == Text("document_create") && RUN_KINDS[1] == Text("document_update");
    assert RUN_KINDS[2] == Text("file_ingest") && RUN_KINDS[3] == Text("integrity_recheck");
  }

  /** The report constraints likewise; a comparison with a missing value refuses nothing. */
  lemma ReportConstraintsByColumn(r: Report)
    ensures ReportConstraints(r) <==>
      && (r.status == Text("pending") || r.status == Text("running") || r.status == Text("succeeded")
          || r.status == Text("failed") || r.status == Text("aborted"))
      && r.checksumAlgorithm != Null
      && (r.integrityOutcome == Null || r.integrityOutcome == Text("match")
          || r.integrityOutcome == Text("mismatch") || r.integrityOutcome == Text("length_boundary"))
      && (r.status == Text("succeeded") ==>
            && (r.integrityOutcome == Null || r.integrityOutcome == Text("match"))
            && r.sourceSha256 != Null && r.reconstructionSha256 == r.sourceSha256)
      && (r.integrityOutcome != Null && r.integrityOutcome != Text("match") ==>
            && r.sourceSha256 != Null && r.reconstructionSha256 != Null
            && (r.firstDifferenceOffset != Null || r.mismatchSpanId != Null))
      && (r.firstDifferenceOffset.Number? ==> r.firstDifferenceOffset.number >= 0)
      && (r.completedAt != Null ==>
            && r.startedAt != Null
            && (r.startedAt.Number? && r.completedAt.Number? ==> r.completedAt.number >= r.startedAt.number))
  {
    StatusByWord(r.status);
    OutcomeByWord(r.integrityOutcome);
    if r.status != Null { CombinedConstraints(r); }
  }

  lemma StatusByWord(v: Value)
    ensures v != Null && Among(v, STATUSES) != False <==>
      || v == Text("pending") || v == Text("running") || v == Text("succeeded") || v == Text("failed")
      || v == Text("aborted")
  {
    assert STATUSES[0] == Text("pending") && STATUSES[1] == Text("running") && STATUSES[2] == Text("succeeded");
    assert STATUSES[3] == Text("failed") && STATUSES[4] == Text("aborted");
  }

  lemma OutcomeByWord(v: Value)
    ensures Or(IsNull(v), Among(v, OUTCOMES)) != False <==>
      v == Null || v == Text("match") || v == Text("mismatch") || v == Text("length_boundary")
  {
    assert OUTCOMES[0] == Text("match") && OUTCOMES[1] == Text("mismatch") && OUTCOMES[2] == Text("length_boundary");
  }

  lemma CombinedConstraints(r: Report)
    requires r.status != Null
    ensures SucceedsOnlyOnEqualHashes(r) != False <==>
      (r.status == Text("succeeded") ==>
         && (r.integrityOutcome == Null || r.integrityOutcome == Text("match"))
         && r.sourceSha256 != Null && r.reconstructionSha256 == r.sourceSha256)
    ensures NonMatchCarriesEvidence(r) != False <==>
      (r.integrityOutcome != Null && r.integrityOutcome != Text("match") ==>
         && r.sourceSha256 != Null && r.reconstructionSha256 != Null
         && (r.firstDifferenceOffset != Null || r.mismatchSpanId != Null))
    ensures IntervalOrdered(r) != False <==>
      (r.completedAt != Null ==>
         && r.startedAt != Null
         && (r.startedAt.Number? && r.completedAt.Number? ==> r.completedAt.number >= r.startedAt.number))
  {
  }

  /** A succeeded run carries two present, equal hashes.  Its outcome is a match or was left
      out: the constraint does not force the outcome to be present. */
  lemma SuccessMeansEqualHashes(r: Report)
    requires r.status == Text("succeeded")
    ensures SucceedsOnlyOnEqualHashes(r) != False <==>
      && r.sourceSha256 != Null && r.sourceSha256 == r.reconstructionSha256
      && r.integrityOutcome in [Text("match"), Null]
  {
  }

  /** A run that succeeded, with equal hashes and no outcome at all. */
  const UNJUDGED_SUCCESS := Run(
    Audit(1, Identity(2), Text("file_ingest"), Text("full"), Text("importer"), Text("c0ffee"), Text("plain"),
          Text("1"), Text("{}"), Number(0)),
    Report(Text("succeeded"), Null, Null, Text("sha256"), Text("ab"), Text("ab"), Null, Null, Null, Null, Null,
           Null, Null, Null, Null),
    Scope(None, None, None))

  /** The constraints let it in: with the outcome missing the CHECK is neither true nor false. */
  lemma SuccessWithoutOutcomePasses()
    ensures RunConstraints(UNJUDGED_SUCCESS)
    ensures UNJUDGED_SUCCESS.report.status == Text("succeeded") && UNJUDGED_SUCCESS.report.integrityOutcome == Null
    ensures SucceedsOnlyOnEqualHashes(UNJUDGED_SUCCESS.report) == Unknown
  {
    var a := UNJUDGED_SUCCESS.audit;
    assert RUN_KINDS[2] == a.runKind && STATUSES[2] == Text("succeeded");
  }

  // ---------- the history of one run ----------

  /** Successive states of one run row under accepted updates. */
  ghost predicate RunHistory(h: seq<Run>) {
    && (forall i :: 0 <= i < |h| ==> RunConstraints(h[i]))
    && (forall i :: 0 < i < |h| ==> Accepted(h[i - 1], h[i]))
  }

  /** The audit columns stay as inserted.  From the first terminal state on the report is
      frozen too, and each reference keeps its value or has been let go for good. */
  lemma {:induction false} RunHistoryIsAuditable(h: seq<Run>, i: nat, j: nat)
    requires RunHistory(h) && i <= j < |h|
    ensures h[j].audit == h[i].audit
    ensures Terminal(h[i]) ==> Terminal(h[j]) && ReleasesOnly(h[i], h[j])
    ensures h[i].report.status in {Text("succeeded"), Text("failed"), Text("aborted")} ==>
      && h[j].report == h[i].report
      && (h[j].scope.documentId == h[i].scope.documentId || h[j].scope.documentId.None?)
      && (h[j].scope.chapterId == h[i].scope.chapterId || h[j].scope.chapterId.None?)
      && (h[j].scope.chunkId == h[i].scope.chunkId || h[j].scope.chunkId.None?)
    ensures h[j].report.status == Text("succeeded") ==>
      h[j].report.sourceSha256 != Null && h[j].report.sourceSha256 == h[j].report.reconstructionSha256
    decreases j
  {
    if i < j {
      RunHistoryIsAuditable(h, i, j - 1);
      assert Accepted(h[j - 1], h[j]);
    }
    TerminalByWord(h[i]);
    if h[j].report.status == Text("succeeded") {
      SuccessMeansEqualHashes(h[j].report);
    }
  }
}
