/**
  Binding files that predate sources: every file gets its own original, or nothing happens.
 */
module SourceBackfill {
  import opened Prelude

  datatype File = File(
    path: Option<string>, bodySha256: Option<string>, byteLength: Option<int>, mediaType: Option<string>,
    checksumAlgorithm: Option<string>, contentSha256: Option<string>, createdAt: Instant,
    primarySource: Option<Uuid>)

  datatype Source = Source(
    locator: Option<string>, mediaType: Option<string>, recordedEncoding: string, byteLength: Option<int>,
    checksumAlgorithm: string, originalSha256: Option<string>, derivedFrom: Uuid, fileContentSha256: Option<string>,
    createdAt: Instant)

  /** NOT NULL and CHECK constraints of an original. */
  predicate SourceConstraints(s: Source) {
    && s.locator.Some? && s.locator.value != ""
    && s.originalSha256.Some? && s.originalSha256.value != ""
    && s.recordedEncoding != ""
    && (s.byteLength.Some? ==> s.byteLength.value >= 0)
  }

  /** The preflight's complaint about one file; a missing byte length is none. */
  predicate Unbackfillable(f: File) {
    || f.path.None? || f.path.value == ""
    || f.bodySha256.None? || f.bodySha256.value == ""
    || (f.byteLength.Some? && f.byteLength.value < 0)
  }

  /** The original restated from the file's own facts. */
  function Restated(id: Uuid, f: File): Source {
    Source(f.path, f.mediaType, "unknown", f.byteLength,
           if f.checksumAlgorithm.None? || f.checksumAlgorithm.value == "" then "sha256" else f.checksumAlgorithm.value,
           f.bodySha256, id, f.contentSha256, f.createdAt)
  }

  /** The preflight complains of just the files whose original would break a constraint. */
  lemma PreflightIff(id: Uuid, f: File)
    ensures Unbackfillable(f) <==> !SourceConstraints(Restated(id, f))
    ensures Unbackfillable(f) <==>
      f.path in {None, Some("")} || f.bodySha256 in {None, Some("")} || (f.byteLength.Some? && f.byteLength.value < 0)
  {
  }

  /** What each column of the original says about the file. */
  lemma RestatedByColumn(id: Uuid, f: File)
    ensures var s := Restated(id, f);
      && s.locator == f.path && s.mediaType == f.mediaType && s.recordedEncoding == "unknown"
      && s.byteLength == f.byteLength && s.originalSha256 == f.bodySha256 && s.fileContentSha256 == f.contentSha256
      && (f.checksumAlgorithm in {None, Some("")} ==> s.checksumAlgorithm == "sha256")
      && (f.checksumAlgorithm !in {None, Some("")} ==> Some(s.checksumAlgorithm) == f.checksumAlgorithm)
      && s.derivedFrom == id && s.createdAt == f.createdAt
  {
  }

  datatype Binding = Refused | Bound(files: map<Uuid, File>, sources: map<Uuid, Source>)

  /** The generated ids do not collide: a collision would violate the primary key. */
  ghost predicate Distinct(files: map<Uuid, File>, drawn: map<Uuid, Uuid>)
    requires drawn.Keys == files.Keys
  {
    forall i, j :: i in files && j in files && i != j ==> drawn[i] != drawn[j]
  }

  /** Every file names its own original, and the original says what the file said. */
  ghost predicate ExactlyOneSource(files: map<Uuid, File>, b: Binding)
    requires b.Bound?
  {
    && b.files.Keys == files.Keys
    && (forall i :: i in files ==>
          && b.files[i].primarySource.Some?
          && b.files[i] == files[i].(primarySource := b.files[i].primarySource)
          && b.files[i].primarySource.value in b.sources
          && b.sources[b.files[i].primarySource.value] == Restated(i, files[i]))
    && (forall i, j :: i in files && j in files && b.files[i].primarySource == b.files[j].primarySource ==> i == j)
    && (forall s :: s in b.sources ==> exists i :: i in files && b.files[i].primarySource == Some(s))
    && (forall s :: s in b.sources ==> SourceConstraints(b.sources[s]))
  }

  /** The files outside `pending` have been given their originals. */
  ghost predicate Progress(files: map<Uuid, File>, drawn: map<Uuid, Uuid>,
                           bound: map<Uuid, File>, sources: map<Uuid, Source>, pending: set<Uuid>)
    requires drawn.Keys == files.Keys
  {
    && pending <= files.Keys && bound.Keys == files.Keys
    && (forall i :: i in pending ==> bound[i] == files[i])
    && (forall i :: i in files && i !in pending ==> bound[i] == files[i].(primarySource := Some(drawn[i])))
    && (forall i :: i in files && i !in pending ==> drawn[i] in sources && sources[drawn[i]] == Restated(i, files[i]))
    && (forall s :: s in sources ==> exists i :: i in files && i !in pending && drawn[i] == s)
  }

  lemma ProgressStep(files: map<Uuid, File>, drawn: map<Uuid, Uuid>,
                     bound: map<Uuid, File>, sources: map<Uuid, Source>, pending: set<Uuid>, i: Uuid)
    requires drawn.Keys == files.Keys && Distinct(files, drawn)
    requires Progress(files, drawn, bound, sources, pending) && i in pending
    ensures Progress(files, drawn, bound[i := files[i].(primarySource := Some(drawn[i]))],
                     sources[drawn[i] := Restated(i, files[i])], pending - {i})
  {
    var sources' := sources[drawn[i] := Restated(i, files[i])];
    forall s | s in sources' ensures exists j :: j in files && j !in pending - {i} && drawn[j] == s
    {
      if s == drawn[i] {
        assert i in files && i !in pending - {i};
      } else {
        var j :| j in files && j !in pending && drawn[j] == s;
        assert j !in pending - {i};
      }
    }
  }

  lemma FinishedIsExact(files: map<Uuid, File>, drawn: map<Uuid, Uuid>, bound: map<Uuid, File>, sources: map<Uuid, Source>)
    requires drawn.Keys == files.Keys && Distinct(files, drawn)
    requires Progress(files, drawn, bound, sources, {})
    requires forall i :: i in files ==> !Unbackfillable(files[i])
    ensures ExactlyOneSource(files, Bound(bound, sources))
  {
    forall s | s in sources
      ensures SourceConstraints(sources[s]) && exists i :: i in files && bound[i].primarySource == Some(s)
    {
      var i :| i in files && drawn[i] == s;
      assert bound[i].primarySource == Some(s);
    }
  }

  /** All or nothing.  The preflight alone decides: once it passes, no constraint of the
      originals can fail and no file is left unbound. */
  method BindFiles(files: map<Uuid, File>, drawn: map<Uuid, Uuid>) returns (b: Binding)
    requires drawn.Keys == files.Keys
    requires Distinct(files, drawn)
    requires forall i :: i in files ==> files[i].primarySource.None?  // the column has just been added
    ensures b.Bound? <==> forall i :: i in files ==> !Unbackfillable(files[i])
    ensures b.Bound? ==> ExactlyOneSource(files, b)
  {
    var offending := set i | i in files && Unbackfillable(files[i]);
    assert forall i :: i in files && Unbackfillable(files[i]) ==> i in offending;
    if offending != {} {
      ghost var i := AnyMember(offending);
      return Refused;
    }

    var pairs := map i | i in files && files[i].primarySource.None? :: drawn[i];
    var sources: map<Uuid, Source> := map[];
    var bound := files;
    var pending := pairs.Keys;
    while pending != {}
      invariant Progress(files, drawn, bound, sources, pending)
      decreases pending
    {
      ghost var _ := AnyMember(pending);
      var i :| i in pending;
      ProgressStep(files, drawn, bound, sources, pending, i);
      sources := sources[drawn[i] := Restated(i, files[i])];
      bound := bound[i := files[i].(primarySource := Some(drawn[i]))];
      pending := pending - {i};
    }

    var unbound := set i | i in bound && bound[i].primarySource.None?;
    if unbound != {} {
      ghost var i := AnyMember(unbound);
      assert false;
      return Refused;
    }
    FinishedIsExact(files, drawn, bound, sources);
    return Bound(bound, sources);
  }
}
