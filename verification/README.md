# Verification of the document store

This project models the hard parts of the document store in Dafny and proves what they
promise.  Verify it with `dafny verify dfyconfig.toml`.

The model has five parts.

* **Bitemporal assertions.**  `TemporalAssertions` is the resolver of the retrieval commands,
  for one object and for many.  `AssertionStore` holds the append-only table, its trigger,
  constraints, cascade and the attachment payload table, as statements on mutable tables.
  `AsOf` puts the database's own as-of function beside the command resolver; `Correction`,
  `ActivationTimeline`, `LostEvidence` and `ObjectRemoval` prove what corrections, activation
  histories, cleared links, deletes and removals do to the answers.  `FailingHistories` holds
  small tables on which a promise fails.
* **Registry and provenance.**  `ObjectRegistry` is the registry, its backfills and triggers.
  `DocumentStore` and `Cascade` are the document hierarchy, its cascading keys and the runs
  that point into it.  `ProcessingRuns` holds both generations of the run guard,
  `SourceBackfill` the staged binding of files to originals, `SourceLineage` the chain from a
  source state to its run and original.
* **Query identity and cursors.**  `JsonText`, `JsonNumbers`, `Json` and `JsonCanonical` print
  and parse canonical JSON (section 7 of RFC 8259 for strings), `Base64Url` is the unpadded
  alphabet of section 5 of RFC 4648, `QueryIdentity` and `Cursor` are built on them.
* **Semantic chunks.**  `UuidText`, `OrderedRows`, `BlockMeta`, `Embeddings` and `ChunkMapper`
  flatten a chunk to rows and rebuild it; `EmbeddingStore` and `ChunkRepository` store it.
* **Two runners.**  `MigrationRunner` and `ServerManager`.

A transaction is one atomic step and a raised error is a rollback.  Instants are integers and
UUIDs are compared by identity.  SHA-256, the ISO-8601 reader, fresh ids, the clock, failing
upgrades and failing lifecycle hooks are parameters; where a property needs two texts not to
collide under the hash, it says so for just these two texts.

## Where code and documentation part

* The guard on `temporal_assertions` lets any update clear `supersedes_assertion_id`, not just
  the cascade it is meant for, and a cleared link can change earlier answers
  (`ClearedLinkChangesCommandAnswer`).  `DroppedLinkIsHarmlessIff` says, for either view, exactly
  when every row keeps standing where it stood; `DroppedLinkChangesCommandAnswerIff` and
  `DroppedLinkChangesDatabaseAnswerIff` say at which pairs an answer changes.  Nothing guards a
  delete either: `DeletedRowIsHarmlessIff` is its exact condition.
* The SQL view lets a row of any object supersede, the command resolver only rows of the same
  object, so a foreign row can split them (`ForeignSupersessionSplitsViews`).  They let the same
  rows stand exactly when such links are covered from inside (`ViewsSeeSameRowsIff`), and then
  they agree (`ViewsAgree`).  Removing another object can change the SQL view
  (`UncoveredRemovalChangesDatabaseAnswer`) and leaves every readable row as visible as it was
  exactly under the condition of `RemovalIsLocalForStateRowsIff`.
* A run may be `succeeded` with a missing integrity outcome: the CHECK is then unknown, which
  passes (`SuccessWithoutOutcomePasses`).  Equal present hashes are still forced
  (`SuccessMeansEqualHashes`).
* Canonical JSON prints a string that holds a high surrogate directly followed by a low one,
  as two code points, like the string with the one joined character.  So distinct queries can
  share an identity (`SplitFieldSharesId`) and a cursor need not survive its token.  For all
  values, requests and cursors, texts, query ids and seals are equal exactly when the values are
  equal up to member order and this joining (`CanonicalIffAlike`, `QueryIdIffFieldsAlike`,
  `SealTextIffJoined`), and a token decodes to the joined cursor (`DecodeEncoded`).
* A self-dependent migration that is missing when the pass comes to it runs twice
  (`SelfDependentRunsTwice`, `RunsOnceIff`), and a dependency pulled forward does not pull its
  own dependencies (`TwoLevelPullIsUnordered`, `OrderedIffPullsReady`).  Both conditions can be
  read off the files and the applied revisions before the call.
* Deleting a processing run is refused by no trigger, only by the keys of rows that cite it.

## Model

| member | source | states |
|---|---|---|
| TemporalAssertions.SelectVisibleAssertion | src/doc_store_server/commands/retrieval_commands.py:282-317 | the row-collecting loops compute the declarative answer: ambiguous exactly when two rows survive, hidden when the sole survivor is a deletion |
| TemporalAssertions.ResolveVisibleVersions | src/doc_store_server/commands/retrieval_commands.py:320-338 | the batch loop gives each object exactly its single-object answer, leaves out hidden objects and raises if and only if some object is ambiguous |
| TemporalAssertions.SupersededIds | src/doc_store_server/commands/retrieval_commands.py:293-300 | collects exactly the ids that a row known by then supersedes |
| TemporalAssertions.VisibleRows | src/doc_store_server/commands/retrieval_commands.py:264-306 | keeps the rows in force, known and unsuperseded, each as often as given |
| TemporalAssertions.Resolve | src/doc_store_server/commands/retrieval_commands.py:282-317 | a conflict is two survivors; a found row survives and is no deletion; absence means every survivor is a deletion |
| TemporalAssertions.ResolveCongruence | src/doc_store_server/commands/retrieval_commands.py:282-317 | only the surviving rows and their multiplicities matter to an answer |
| TemporalAssertions.AnswersIgnoreRowOrder | src/doc_store_server/commands/retrieval_commands.py:320-338 | no object's answer depends on the order of the input rows |
| AssertionStore.AppendOnlyTrigger | migrations/versions/0018_bitemporal_assertions.py:56-122 | the column ladder lets through exactly the no-op and the clearing of the supersession link, and names a column that changed |
| AssertionStore.Tables.Insert | migrations/versions/0018_bitemporal_assertions.py:134-197 | a row enters exactly when its keys, checks, revision and references allow it |
| AssertionStore.InsertAcceptedIff | migrations/versions/0018_bitemporal_assertions.py:134-197 | in valid tables a row is accepted exactly when its id is new and the tables with it are valid, revisions being unique per object |
| AssertionStore.RowConstraintsByColumn | migrations/versions/0018_bitemporal_assertions.py:165-181 | the checks of a row column by column: a positive revision, a family, both times, an interval with from before until, no link to itself |
| AssertionStore.Tables.Update | migrations/versions/0018_bitemporal_assertions.py:90-130 | a rewrite is accepted exactly when the trigger permits it and otherwise changes nothing |
| AssertionStore.Tables.StateGuard | migrations/versions/0018b_content_attachment_temporal_state.py:117-197 | the guard's verdict on family, kind and activity of an attachment payload |
| AssertionStore.Tables.AddState | migrations/versions/0018b_content_attachment_temporal_state.py:117-205 | a payload is stored once per existing assertion that the guard admits |
| AssertionStore.PayloadAcceptedIff | migrations/versions/0018b_content_attachment_temporal_state.py:117-205 | in valid tables a payload is accepted exactly when its assertion has none and the tables with it are valid |
| AssertionStore.PayloadsByColumn | migrations/versions/0018b_content_attachment_temporal_state.py:117-197 | every stored payload belongs to a `content_attachment` assertion about a registered attachment, inactive for a deletion and active for a restoration |
| AssertionStore.Tables.Register | migrations/versions/0018a_object_registry_kind_alignment.py:140-186 | an object enters the registry exactly with a new id and an allowlisted kind and table |
| AssertionStore.RegistrationAcceptedIff | migrations/versions/0018a_object_registry_kind_alignment.py:140-186 | that is exactly when the id is new and the tables with the entry are valid |
| AssertionStore.Tables.Unregister | migrations/versions/0018_bitemporal_assertions.py:183-196 | unregistering an object is never refused: the cascade removes its rows and payloads and every link into them is cleared through the trigger |
| AssertionStore.Tables.ClearLinksTo | migrations/versions/0018_bitemporal_assertions.py:101-107 | every SET NULL update of one removed row passes the append-only trigger |
| AssertionStore.Tables.Delete | migrations/versions/0018_bitemporal_assertions.py:19-24 | deleting one assertion is never refused: its payload goes and every link to it is cleared through the trigger |
| AssertionStore.Tables.DropState | migrations/versions/0018b_content_attachment_temporal_state.py:350-363 | deleting one payload takes just it |
| AssertionStore.ApplyKeepsValid | migrations/versions/0018_bitemporal_assertions.py:134-197 | every statement, deletes of single rows included, keeps all constraints, references and what the state guard promised |
| AssertionStore.RunKeepsValid | migrations/versions/0018_bitemporal_assertions.py:134-222 | the same over every run of statements |
| AsOf.StateAsOf | migrations/versions/0018b_content_attachment_temporal_state.py:299-346 | counts the visible rows: more than one is refused, one is returned with its activity, none gives no row |
| AsOf.SurvivesById | src/doc_store_server/commands/retrieval_commands.py:282-317 | the resolver's survivors are the object's rows that are in force, known and replaced by no known row of the object |
| AsOf.CommandAnswerById | src/doc_store_server/commands/retrieval_commands.py:306-317 | two such rows are a conflict, a lone one is the answer unless it deletes |
| AsOf.ViewsSeeSameRowsIff | migrations/versions/0018b_content_attachment_temporal_state.py:281-294 | for an attachment object both views let the same rows stand at all pairs exactly when every link from another object is covered by a row of the object known in time |
| AsOf.InsideLinksAreCovered | migrations/versions/0018b_content_attachment_temporal_state.py:281-294 | links that stay inside the object need no cover |
| AsOf.ViewsAgree | migrations/versions/0018b_content_attachment_temporal_state.py:249-346 | with foreign links covered, command and SQL view refuse the same pairs; otherwise the command returns the SQL row, except none exactly for no row or a deletion, which the guard keeps inactive |
| AsOf.QuietRunKeepsKnown | migrations/versions/0018_bitemporal_assertions.py:90-122 | runs of later-stamped inserts, of update attempts that do not drop a known link, and of deletes that reach nothing known leave everything known by the clock as it was |
| AsOf.RecordedAnswersNeverChange | src/doc_store_server/commands/retrieval_commands.py:282-317 | over every such run, each answer or ambiguity at a known time up to the clock stays the same in both views |
| LostEvidence.AnyLinkCanBeDropped | migrations/versions/0018_bitemporal_assertions.py:101-107 | the trigger lets the clearing of any link through and the tables stay valid |
| LostEvidence.DropExposesTarget | migrations/versions/0018_bitemporal_assertions.py:101-107 | clearing a link makes just its target stand, at just the pairs where the link alone held it back, in either view |
| LostEvidence.NeverExposedIffCovered | migrations/versions/0018b_content_attachment_temporal_state.py:290-294 | a link alone holds its target back at no pair exactly when it does not count in the view or another row replaces the target by the time both ends are known |
| LostEvidence.DroppedLinkIsHarmlessIff | migrations/versions/0018_bitemporal_assertions.py:101-107 | in either view clearing a link leaves every row standing where it stood exactly when the link is covered so |
| LostEvidence.DroppedLinkChangesCommandAnswerIff | src/doc_store_server/commands/retrieval_commands.py:282-317 | a command's answer at a pair changes exactly when the target is one of its object's rows, held back there by the link alone, the answer was no conflict, and the target is no deletion or something else stood |
| LostEvidence.CoveredDropKeepsCommandAnswers | src/doc_store_server/commands/retrieval_commands.py:282-317 | a covered link can be cleared without changing any command's answer, up to that link in the row |
| LostEvidence.DroppedLinkChangesDatabaseAnswerIff | migrations/versions/0018b_content_attachment_temporal_state.py:299-346 | an as-of answer at a pair changes exactly when the target is a readable row of the object, held back there by the link alone, and the answer was no conflict |
| LostEvidence.DroppedLinkIsHarmlessForDatabaseIff | migrations/versions/0018b_content_attachment_temporal_state.py:281-346 | every readable row is visible as before exactly when the target is not readable or another row of any object covers, and then no as-of answer changes |
| LostEvidence.DeleteExposesTarget | migrations/versions/0018_bitemporal_assertions.py:19-24 | deleting a row makes just the target of its link stand, at just the pairs where that link alone held it back |
| LostEvidence.DeletedRowIsHarmlessIff | migrations/versions/0018_bitemporal_assertions.py:19-24 | a delete leaves every row standing where it stood exactly when the deleted row was replaced as soon as it was known and its link is covered |
| LostEvidence.HarmlessDeleteKeepsCommandAnswer | src/doc_store_server/commands/retrieval_commands.py:282-317 | such a delete changes no command's answer, up to links to the deleted row |
| LostEvidence.HarmlessDeleteKeepsDatabaseAnswer | migrations/versions/0018b_content_attachment_temporal_state.py:299-346 | nor, under the same condition on the SQL view, any as-of answer |
| LostEvidence.DeletedStateHidesItsRow | migrations/versions/0018b_content_attachment_temporal_state.py:273-294 | deleting a payload hides just its row from the SQL view and leaves every command alone |
| FailingHistories.ClearedLinkChangesCommandAnswer | migrations/versions/0018_bitemporal_assertions.py:101-107 | a concrete valid table where clearing one link turns a recorded answer into a conflict although a foreign row covers for the SQL view |
| FailingHistories.ForeignSupersessionSplitsViews | migrations/versions/0018b_content_attachment_temporal_state.py:290-294 | a concrete valid table where the command finds a row and the SQL view none |
| FailingHistories.UncoveredRemovalChangesDatabaseAnswer | migrations/versions/0018_bitemporal_assertions.py:183-196 | unregistering one object of that table changes another object's as-of answer |
| ObjectRemoval.RemovalLeavesNothingBehind | migrations/versions/0018_bitemporal_assertions.py:182-196 | unregistering removes exactly the object's assertions and payloads and leaves no dangling link |
| ObjectRemoval.RemovalIsLocalForCommands | src/doc_store_server/commands/retrieval_commands.py:282-317 | every other object keeps its command answer, up to the cleared link of the row returned |
| ObjectRemoval.RemovalIsLocalForDatabaseIff | migrations/versions/0018b_content_attachment_temporal_state.py:281-294 | every remaining row is accepted at the same pairs exactly when each outward link is covered by a row that stays |
| ObjectRemoval.RemovalIsLocalForStateRowsIff | migrations/versions/0018b_content_attachment_temporal_state.py:281-294 | every readable row of another object is visible at the same pairs exactly when each link from the removed object to such a row is covered by a row that stays |
| ObjectRemoval.RemovalIsLocalForAttachments | migrations/versions/0018b_content_attachment_temporal_state.py:249-363 | then the as-of answer of every other object is unchanged |
| ActivationTimeline.OnlyTheLastKnownIsVisible | migrations/versions/0018b_content_attachment_temporal_state.py:281-294 | a member of a supersession chain is visible exactly while it is known and its successor is not |
| ActivationTimeline.TimelineIsReadable | migrations/versions/0018b_content_attachment_temporal_state.py:19-28 | at every known time the as-of view returns the last assertion recorded by then, inactive for a deletion and active for a restoration |
| ActivationTimeline.TimelineStartsEmpty | migrations/versions/0018b_content_attachment_temporal_state.py:299-346 | before the first assertion is recorded there is no row |
| Correction.PartialCorrection | src/doc_store_server/commands/retrieval_commands.py:264-317 | pieces that partition the original's interval keep the history unambiguous, earlier known times unchanged, and give each act date its one piece |
| Correction.OverlapIsAmbiguous | src/doc_store_server/commands/retrieval_commands.py:306-313 | two pieces that share an act date make it ambiguous from then on |
| Correction.CutsPartition | src/doc_store_server/db/schema.py:234-242 | cutting a half-open interval at increasing instants gives non-empty pieces that partition it |
| Correction.AppendsExtendHistory | migrations/versions/0018_bitemporal_assertions.py:134-197 | rows acceptable one by one are appended as a whole and the object's history grows by just them |
| Correction.CorrectingAnInterval | src/doc_store_server/db/schema.py:234-242 | end to end over the table: cutting an unsuperseded row and appending the pieces gives the corrected answers and no others |
| ObjectRegistry.CreateRegistry | migrations/versions/0005_entity_lifecycle_registry.py:27-109 | the preflight passes exactly when no id is claimed twice, reports all that are, and the backfill is the tagged union of the tables |
| ObjectRegistry.AlignKinds | migrations/versions/0018a_object_registry_kind_alignment.py:93-137 | alignment is all or nothing: exactly when every locator is allowlisted each entry gets its table's kind |
| ObjectRegistry.RegisterTrigger | migrations/versions/0018a_object_registry_kind_alignment.py:140-186 | registration succeeds exactly for an allowlisted table and an unused id, and adds just that entry with the table's kind |
| ObjectRegistry.AllowlistByTable | src/doc_store_server/db/schema.py:141-159 | the kind that each table stands for, table by table |
| ObjectRegistry.EntityTablesByName | migrations/versions/0005_entity_lifecycle_registry.py:27-109 | the tables whose ids the registry was created from, by name |
| DocumentStore.MigrateRegistry | migrations/versions/0018a_object_registry_kind_alignment.py:93-137 | creation and alignment together fail exactly when two tables claim one id and otherwise give the exact registry that the triggers keep from then on |
| ProcessingRuns.FirstDistinct | migrations/versions/0021_run_scope_reference_release.py:72-83 | the ladder finds the first listed column that changes, and none exactly when none does |
| ProcessingRuns.OriginalGuard | migrations/versions/0019_source_provenance.py:336-375 | the original guard accepts exactly updates of non-terminal runs that keep the audit columns: none for a succeeded, failed or aborted run, and for a pending or running one just those |
| ProcessingRuns.ReleasingGuard | migrations/versions/0021_run_scope_reference_release.py:86-161 | the replacement accepts for a succeeded, failed or aborted run exactly updates that keep audit and report and keep or let go of each reference, and for a pending or running one exactly those that keep the audit |
| ProcessingRuns.GuardsCompared | migrations/versions/0021_run_scope_reference_release.py:103-161 | for non-terminal runs both guards accept the same updates; beyond that the replacement accepts just releases |
| ProcessingRuns.TerminalByWord | migrations/versions/0021_run_scope_reference_release.py:54 | a run is terminal exactly when it succeeded, failed or was aborted |
| ProcessingRuns.AuditConstraintsByColumn | migrations/versions/0019_source_provenance.py:596-622 | the audit checks in plain logic, by column and word |
| ProcessingRuns.ReportConstraintsByColumn | migrations/versions/0019_source_provenance.py:601-648 | the report checks in plain logic, by column and word; a comparison with a missing value refuses nothing |
| ProcessingRuns.SuccessMeansEqualHashes | migrations/versions/0019_source_provenance.py:623-632 | the CHECK passes a succeeded run exactly with equal present hashes and an outcome that is a match or missing |
| ProcessingRuns.SuccessWithoutOutcomePasses | migrations/versions/0019_source_provenance.py:623-632 | a concrete row that succeeded without an outcome meets every constraint |
| ProcessingRuns.RunHistoryIsAuditable | migrations/versions/0021_run_scope_reference_release.py:103-161 | over every sequence of accepted updates audit columns stay, the report of a succeeded, failed or aborted run is frozen and a reference it let go never returns |
| DocumentStore.DeletedKeepsValid | migrations/versions/0001_hierarchy_chunk_root.py:72-145 | removing a closure leaves no dangling row or run reference, an exact registry, and every run with its other columns as they were |
| DocumentStore.RowsDangleNowhere | migrations/versions/0001_hierarchy_chunk_root.py:72-145 | in a valid store the document, chapter and paragraph that each chapter, paragraph and chunk row names are among the rows |
| DocumentStore.RunsDangleNowhere | migrations/versions/0019_source_provenance.py:656-675 | so are the document, chapter and chunk that a run still names |
| DocumentStore.DeletedRowsByColumn | migrations/versions/0001_hierarchy_chunk_root.py:72-145 | besides the root a delete takes exactly the rows that name, in a column of theirs, a row it takes, and leaves the others as they were |
| Cascade.ReachedIsRemoved | migrations/versions/0001_hierarchy_chunk_root.py:72-145 | when no remaining row hangs from a removed one, everything reachable from the root is gone |
| Cascade.Database.Cascade | migrations/versions/0001_hierarchy_chunk_root.py:72-145 | working off removed rows one by one ends with exactly the closure removed, or is refused by the original guard only where it must be |
| Cascade.Database.ReleaseRuns | migrations/versions/0019_source_provenance.py:656-675 | the SET NULL of one removed row passes the installed guard or finds a terminal run that names the row |
| Cascade.Database.Delete | migrations/versions/0021_run_scope_reference_release.py:103-161 | a delete succeeds exactly when the installed guard permits it and otherwise rolls everything back |
| Cascade.Database.Insert | migrations/versions/0018a_object_registry_kind_alignment.py:140-186 | a row enters exactly with fresh id, existing parents and an allowlisted table, the order index and source range of the row apart |
| Cascade.RowInsertableIff | migrations/versions/0018a_object_registry_kind_alignment.py:140-186 | a row is taken exactly when its id is new, its table has a kind and the store with it is valid |
| Cascade.RunStorableIff | migrations/versions/0019_source_provenance.py:520-680 | a run is taken exactly when its id is new and the store with it is valid, and updated exactly when the guard accepts that and the store with it is valid |
| Cascade.Database.UpdateRun | migrations/versions/0021_run_scope_reference_release.py:103-161 | a run update passes exactly when guard, checks and references allow it |
| Cascade.Database.DeleteRun | src/doc_store_server/db/schema.py:1188-1190 | a run goes unless a row that cites it restricts the delete |
| Cascade.ApplyKeepsValid | migrations/versions/0005_entity_lifecycle_registry.py:111-167 | every insert, delete and update, of rows and of runs, keeps id-in-table equivalent to the registry entry, and every reference resolvable |
| Cascade.RunsSurviveEverything | migrations/versions/0021_run_scope_reference_release.py:103-161 | over every sequence of statements the registry stays exact, and a run that is not itself deleted stays, with its audit columns and, once terminal, its report |
| Cascade.DocumentDelete | migrations/versions/0001_hierarchy_chunk_root.py:72-145 | deleting a document always removes exactly what is reachable over the cascade keys under the replacement guard, and under the original exactly when no terminal run points into it |
| Cascade.DocumentDeleteByColumn | migrations/versions/0001_hierarchy_chunk_root.py:72-145 | after deleting a document no chapter, paragraph or chunk whose document column names it remains, exactly the rows that name a removed row in some column went with it, and what remains is unchanged |
| Cascade.RunsAfterDeleteByColumn | migrations/versions/0019_source_provenance.py:656-675 | and each run keeps its audit and report, with exactly its references to removed rows let go |
| SourceBackfill.BindFiles | migrations/versions/0019_source_provenance.py:179-303 | the preflight alone decides; once it passes, no constraint can fail and each file is bound to its own original that restates it |
| SourceBackfill.PreflightIff | migrations/versions/0019_source_provenance.py:179-240 | the preflight complains of exactly the files whose original would break a constraint: no path, no body hash or a negative length |
| SourceBackfill.RestatedByColumn | migrations/versions/0019_source_provenance.py:240-280 | what each column of the original says about the file, with `unknown` for the encoding and `sha256` where no algorithm is named |
| SourceLineage.StateAppendOnly | migrations/versions/0019_source_provenance.py:464-491 | a state update is let through exactly when it rewrites nothing, and a column that changed is named |
| SourceLineage.ApplyKeepsEvidence | migrations/versions/0019_source_provenance.py:386-453 | one statement keeps a state, its original and its run's audit, or removes the state with its assertion |
| SourceLineage.EvidenceNeverForks | migrations/versions/0019_source_provenance.py:386-453 | over every sequence of statements each state rests on a run over the original it restores, all as recorded, while its assertion stands |
| SourceLineage.StateInsertableIff | migrations/versions/0019_source_provenance.py:386-453 | whether a state is taken, column by column: its family is `source_state`, its original and run are stored, and the run consumed this original |
| SourceLineage.TakenIffValid | migrations/versions/0019_source_provenance.py:595-745 | states, runs and originals are taken exactly when the chain with them is valid, and originals and runs given up exactly when the chain without them is |
| SourceLineage.RewrittenIffValid | migrations/versions/0019_source_provenance.py:306-500 | originals and states are never rewritten, and a run only as its guard allows and the chain stays valid |
| SourceLineage.AssertionsComeAndGo | migrations/versions/0018_bitemporal_assertions.py:134-197 | an assertion enters with its family if it is new, and takes just its own state along when it goes |
| JsonText.RoundTripIffUnsplit | doc-store-client/src/doc_store_client/models.py:137-138 | a string is what its printed form reads back as exactly when it holds no split surrogate pair |
| JsonText.ReadEscapedUnits | doc-store-client/src/doc_store_client/models.py:137-138 | a printed string body reads back whatever follows, and the reader stops at its quote |
| JsonText.EscapeForm | doc-store-client/src/doc_store_client/models.py:137-138 | which characters are printed as they are, which have a short escape, and that all others are four lower-case hexadecimal digits |
| JsonNumbers.DecimalRoundTrip | doc-store-client/src/doc_store_client/models.py:137-138 | printed integers read back |
| JsonNumbers.DecimalForm | doc-store-client/src/doc_store_client/models.py:137-138 | a negative number is a hyphen and its opposite, and no number but zero starts with a zero |
| Json.ReadWritten | doc-store-client/src/doc_store_client/models.py:137-138 | any printed value, whatever follows it, is read exactly and nothing more |
| Json.ParseWritten | doc-store-client/src/doc_store_client/models.py:137-138 | a printed value parses to itself with its strings rejoined |
| JsonCanonical.SortKeysCanonical | doc-store-client/src/doc_store_client/models.py:137-138 | sorting keys at every depth identifies exactly the values equal up to member order |
| JsonCanonical.AtMostIff | doc-store-client/src/doc_store_client/models.py:137-138 | keys are sorted by code points: a prefix first, else by the first difference |
| JsonCanonical.CanonicalIffAlike | doc-store-client/src/doc_store_client/models.py:137-138 | two values have one canonical text exactly when they are equal up to member order and the joining of split surrogate pairs |
| JsonCanonical.UnsplitAlikeIsSame | doc-store-client/src/doc_store_client/models.py:137-138 | values equal up to member order are always alike so, and without split pairs no others are |
| JsonCanonical.CanonicalIsIdentity | doc-store-client/src/doc_store_client/models.py:137-138 | without split pairs two values have one canonical text exactly when they are equal up to member order |
| JsonCanonical.SplitPairsCollide | doc-store-client/src/doc_store_client/models.py:137-138 | every string with a split pair shares its text with a different string |
| JsonCanonical.CanonicalIsAscii | doc-store-client/src/doc_store_client/models.py:307-311 | canonical text is ASCII, so its UTF-8 bytes are its characters |
| QueryIdentity.MarksSpelled | doc-store-client/src/doc_store_client/models.py:137-138 | the marks around arrays, objects, names and strings, with no space between them |
| QueryIdentity.JoinMore | doc-store-client/src/doc_store_client/models.py:137-138 | items are separated by one comma |
| QueryIdentity.AgreeingFieldsAreSame | doc-store-client/src/doc_store_client/models.py:141-154 | the filtered payloads are equal exactly when the requests agree on every field outside the paging state, absent and null being one |
| QueryIdentity.AgreeingFieldsAreAlike | doc-store-client/src/doc_store_client/models.py:141-154 | with plain names the printed payloads are alike exactly when the requests agree field by field, up to member order and split pairs, outside the paging state |
| QueryIdentity.QueryIdIffAlike | doc-store-client/src/doc_store_client/models.py:93-166 | barring a collision of their two texts, any two requests share a query id exactly when their identity fields are equal up to member order and split pairs |
| QueryIdentity.QueryIdIffFieldsAlike | doc-store-client/src/doc_store_client/models.py:93-166 | with plain names, exactly when they agree so on every field but act_date, known_at, cursor and offset |
| QueryIdentity.QueryIdIsIdentity | doc-store-client/src/doc_store_client/models.py:93-166 | without split pairs, exactly when they agree on all fields but act_date, known_at, cursor and offset |
| QueryIdentity.QueryIdLeavesOutFourNames | doc-store-client/src/doc_store_client/models.py:96-98 | the same two laws with the four names written out |
| QueryIdentity.SplitFieldSharesId | doc-store-client/src/doc_store_client/models.py:93-166 | under every hash a request with a split string in a field that counts shares its id with the disagreeing request that holds the joined string |
| Base64Url.DecodeEncoded | doc-store-client/src/doc_store_client/models.py:307-325 | every byte sequence survives encoding, in groups of three, two or one |
| Base64Url.UnpadRepad | doc-store-client/src/doc_store_client/models.py:311-321 | stripping `=` and restoring it by length gives the encoding back |
| Base64Url.AlphabetSpelled | doc-store-client/src/doc_store_client/models.py:307-311 | the letters, digits, hyphen and underscore of the URL-safe alphabet |
| Cursor.ConstructibleIffStable | doc-store-client/src/doc_store_client/models.py:241-258 | the cursors the constructor can return are exactly those it returns unchanged |
| Cursor.MakeAcceptsIff | doc-store-client/src/doc_store_client/models.py:241-258 | the constructor takes exactly dates that strip to readable text, an order key and query id that are not blank, a position that is not negative and a seal that is empty or the hash of the stripped cursor, and returns that cursor under that hash |
| Cursor.MakeIff | doc-store-client/src/doc_store_client/models.py:241-258 | which constructor arguments give a cursor, field by field |
| Cursor.StripSplits | doc-store-client/src/doc_store_client/models.py:120-122 | stripping removes whitespace at both ends and all of it there |
| Cursor.FromMembersIff | doc-store-client/src/doc_store_client/models.py:46-59 | an object gives exactly the constructible cursor it represents: no unknown name, its strings up to stripping of the dates, 0 for a missing position, and a seal that is missing, empty or the very hash |
| Cursor.RebuiltIsConstructible | doc-store-client/src/doc_store_client/models.py:241-258 | whatever object a token is taken to hold, a cursor built from it carries the hash of exactly its five pinned values |
| Cursor.DecodedIsConstructible | doc-store-client/src/doc_store_client/models.py:241-327 | so does every cursor that the modelled decoder returns |
| Cursor.DecodedSeal | doc-store-client/src/doc_store_client/models.py:313-327 | whatever token is decoded, the seal it carries is missing, empty or the hash of the cursor that results |
| Cursor.AlteredIsRefused | doc-store-client/src/doc_store_client/models.py:253-258 | a sealed cursor altered under its old seal is refused, and so is its token, barring a collision of the two sealed texts |
| Cursor.TokenIsStripped | doc-store-client/src/doc_store_client/models.py:313-320 | whitespace around a token does not matter, and a blank one is refused |
| Cursor.SealTextSpelled | doc-store-client/src/doc_store_client/models.py:260-268 | the sealed text spelled out: the five pinned values by name and in order |
| Cursor.AdvanceReseals | doc-store-client/src/doc_store_client/models.py:296-305 | turning the page fails only for a negative position, changes only position and seal, and re-seals |
| Cursor.Encode | doc-store-client/src/doc_store_client/models.py:307-311 | a token is never empty and stripping leaves it alone |
| Cursor.DecodeEncoded | doc-store-client/src/doc_store_client/models.py:307-327 | every constructible cursor's token decodes to the cursor with its strings joined, provided the library reads the joined dates, and is refused otherwise |
| Cursor.RoundTripIff | doc-store-client/src/doc_store_client/models.py:241-327 | every constructible cursor survives its token exactly when none of its strings holds a split surrogate pair |
| Cursor.SealTextIffJoined | doc-store-client/src/doc_store_client/models.py:260-268 | two cursors are sealed over one text exactly when they pin one position and, up to split pairs, the same four strings |
| Cursor.SealPinsJoinedFields | doc-store-client/src/doc_store_client/models.py:260-268 | barring a collision, equal seals mean equal joined cursors |
| Cursor.SealPinsFields | doc-store-client/src/doc_store_client/models.py:260-268 | without split pairs, barring a collision, equal seals mean equal pinned values |
| Cursor.ReplayAcceptedIff | doc-store-client/src/doc_store_client/models.py:329-408 | a request carrying another request's cursor is accepted exactly when repeated bounds denote the moments the decoded cursor pins and the requests agree, up to split pairs, outside the paging state |
| Cursor.UnsplitReplayAcceptedIff | doc-store-client/src/doc_store_client/models.py:329-408 | without split pairs, exactly when repeated bounds denote the pinned moments and the requests agree |
| Cursor.PagesReplay | doc-store-client/src/doc_store_client/models.py:296-408 | an advanced cursor is accepted, whatever bounds are repeated, with just the requests the first one is accepted with |
| Cursor.BoundReplaysIff | doc-store-client/src/doc_store_client/models.py:131-134 | a repeated bound replays exactly when it is missing or denotes the pinned moment |
| Cursor.AcceptsByField | doc-store-client/src/doc_store_client/models.py:394-408 | a request is accepted exactly with readable bounds and no cursor, or with one that decodes to a cursor of this query whose moments the given bounds denote |
| UuidText.ReadShown | src/doc_store_server/db/semantic_chunk_mapper.py:115-120 | the text of every UUID reads back as it |
| UuidText.ShownForm | src/doc_store_server/db/semantic_chunk_mapper.py:115-120 | a shown UUID has 36 characters, hyphens behind its groups and lower-case digits |
| OrderedRows.Order | src/doc_store_server/db/semantic_chunk_mapper.py:123-138 | the loop returns the one arrangement of the rows by ordinal, or refuses when there is none |
| OrderedRows.ArrangementIffPermutation | src/doc_store_server/db/semantic_chunk_mapper.py:123-138 | an arrangement exists exactly when the ordinals are a permutation of 0 to n-1, and sorting gives it |
| BlockMeta.MergeSplit | src/doc_store_server/db/link_embedding_metadata_schema.py:93-111 | splitting metadata loses nothing |
| BlockMeta.SplitMergeIff | src/doc_store_server/db/link_embedding_metadata_schema.py:93-111 | merging loses nothing exactly when each part holds only its own keys |
| BlockMeta.SplitByKey | src/doc_store_server/db/link_embedding_metadata_schema.py:93-111 | which keys are promoted, by name |
| Embeddings.SelectActiveIsLatest | src/doc_store_server/db/link_embedding_metadata_schema.py:137-157 | selection fails exactly without a compatible active row and otherwise gives one that none is later than |
| Embeddings.LatestByColumn | src/doc_store_server/db/link_embedding_metadata_schema.py:150-157 | no row was created later than the latest one, a missing creation time is the oldest, and the text of the id decides a tie |
| Embeddings.LatestIsFirst | src/doc_store_server/db/link_embedding_metadata_schema.py:150-157 | of rows that agree in both the first is chosen |
| Embeddings.TextAtMostIff | src/doc_store_server/db/link_embedding_metadata_schema.py:150-157 | texts compare by the first difference, a prefix first |
| ChunkMapper.ToRows | src/doc_store_server/db/semantic_chunk_mapper.py:160-240 | flattening with its loops gives the specified rows or refuses |
| ChunkMapper.RootByColumn | src/doc_store_server/db/semantic_chunk_mapper.py:174-191 | the root row column by column: the chapter id is read from `chapter_id` if the metadata has that key and else from `parent_id` |
| ChunkMapper.SatellitesByColumn | src/doc_store_server/db/semantic_chunk_mapper.py:193-240 | the metrics, feedback, embedding and metadata rows column by column |
| ChunkMapper.ListsByColumn | src/doc_store_server/db/semantic_chunk_mapper.py:215-228 | each token, tag and link is one row at its own position |
| ChunkMapper.FlattenedIff | src/doc_store_server/db/semantic_chunk_mapper.py:160-240 | a chunk is accepted exactly when its ids, chapter and links read, no alias contradicts its original, and embedding and model come together |
| ChunkMapper.ReadLinkIff | src/doc_store_server/db/semantic_chunk_mapper.py:223-228 | a link reads as what stands before and behind its first colon |
| ChunkMapper.FromRows | src/doc_store_server/db/semantic_chunk_mapper.py:243-326 | rebuilding with its grouping loops gives the specified chunk or refuses |
| ChunkMapper.RebuiltIff | src/doc_store_server/db/semantic_chunk_mapper.py:243-288 | rows are refused exactly for a foreign row, an unknown token kind, ordinals that are not 0 to n-1, or a model without a dimension |
| ChunkMapper.RebuiltRoot | src/doc_store_server/db/semantic_chunk_mapper.py:298-326 | what the rebuilt chunk carries of the root, metadata and embedding, column by column |
| ChunkMapper.RebuiltTags | src/doc_store_server/db/semantic_chunk_mapper.py:269-304 | each tag stands where its ordinal puts it |
| ChunkMapper.RebuiltLinks | src/doc_store_server/db/semantic_chunk_mapper.py:270-304 | each link stands where its ordinal puts it |
| ChunkMapper.SelectedIsLatest | src/doc_store_server/db/semantic_chunk_mapper.py:284-294 | the embedding is the latest active row of what was asked for, and none exactly when there is none |
| ChunkMapper.ReadShownLink | src/doc_store_server/db/semantic_chunk_mapper.py:223-228 | a link rebuilt from relation and target splits into them again |
| ChunkMapper.RowsRebuildNormal | src/doc_store_server/db/semantic_chunk_mapper.py:160-326 | under any permutation of its child rows every accepted chunk is rebuilt in an explicit normal form |
| ChunkMapper.NormalIffCanonical | src/doc_store_server/db/semantic_chunk_mapper.py:300-326 | a chunk is its own normal form exactly when its identities, links, aliases and defaults are canonical and it has no score |
| ChunkMapper.RoundTripIff | src/doc_store_server/db/semantic_chunk_mapper.py:160-326 | an accepted chunk with an active embedding, or none, survives its rows exactly when it is canonical |
| EmbeddingStore.PayloadsKeepOneActive | src/doc_store_server/db/semantic_chunk_repository.py:328-373 | any sequence of payloads keeps at most one active row per chunk, model and dimension |
| EmbeddingStore.RecordedByRow | src/doc_store_server/db/semantic_chunk_repository.py:328-373 | what recording one payload leaves under each key: vector, activity, a kept, given or new id, a given, kept or new creation time, and rivals retired by an active payload only |
| EmbeddingStore.RowOfByColumn | src/doc_store_server/db/semantic_chunk_repository.py:328-373 | a stored row shows its key and its body, column by column |
| EmbeddingStore.PayloadsAreLocal | src/doc_store_server/db/semantic_chunk_repository.py:328-373 | rows of another chunk, model or dimension are unchanged |
| EmbeddingStore.LastActiveWins | src/doc_store_server/db/semantic_chunk_repository.py:328-373 | no row is dropped, and a last active payload is stored as the only active rival |
| EmbeddingStore.SelectedIsTheActive | src/doc_store_server/db/link_embedding_metadata_schema.py:137-157 | then selection among the stored rows, in any order, returns that row |
| EmbeddingStore.SelectionFollowsActivity | src/doc_store_server/db/link_embedding_metadata_schema.py:137-157 | selection finds a row exactly when one of the chunk is active for the model and dimension, and then that one |
| ChunkRepository.SavedKeepsValid | src/doc_store_server/db/semantic_chunk_repository.py:85-108 | every save keeps rows under their own keys and at most one rival embedding active |
| ChunkRepository.SaveIsLocal | src/doc_store_server/db/semantic_chunk_repository.py:85-108 | saving one chunk leaves every other chunk's aggregate untouched |
| ChunkRepository.SavedTextAgrees | src/doc_store_server/db/semantic_chunk_repository.py:165-201 | after every save stored text, digest and both character counts agree and the root keeps no text |
| ChunkRepository.ChangedTextInvalidates | src/doc_store_server/db/semantic_chunk_repository.py:85-108 | a changed text leaves no metrics, feedback, token, tag or embedding row, resets status, category and metadata keys, and keeps just the new links |
| ChunkRepository.KeptTextKeepsReview | src/doc_store_server/db/semantic_chunk_repository.py:85-104 | a save that keeps the text changes no status, category, assignment or dictionary, and a new chunk has neither status nor category |
| ChunkRepository.TextChangesIff | src/doc_store_server/db/semantic_chunk_repository.py:158-163 | the stored text is the text row's, and the root's only while there is none |
| ChunkRepository.MarkedByKnownWords | src/doc_store_server/db/semantic_chunk_repository.py:203-229 | a changed text enters just the words `needs_review` and `uncategorized`, leaves every known word its id, and marks the chunk with their ids |
| ChunkRepository.SavedReadsBack | src/doc_store_server/db/semantic_chunk_repository.py:68-114 | what is stored reads back as the normal form, cleared if the text changed, with the embedding selected among the stored ones |
| ChunkRepository.Repository.UpsertEmbeddings | src/doc_store_server/db/semantic_chunk_repository.py:328-373 | the loop over payloads retires rivals, then inserts or overwrites under the version key |
| ChunkRepository.Repository.SetProcessingRequired | src/doc_store_server/db/semantic_chunk_repository.py:203-252 | root and assignments get the ids of the reset words, which are entered when missing |
| ChunkRepository.Repository.ReplaceMetrics | src/doc_store_server/db/semantic_chunk_repository.py:254-307 | metrics and feedback are replaced or removed together, feedback kept only beside metrics |
| ChunkRepository.Repository.ReplaceOrderedChildren | src/doc_store_server/db/semantic_chunk_repository.py:309-326 | the chunk's tokens, tags and links are exchanged and no others |
| ChunkRepository.Repository.ReadRows | src/doc_store_server/db/semantic_chunk_repository.py:389-490 | reads exactly the rows the tables hold for the chunk |
| ChunkRepository.Repository.Save | src/doc_store_server/db/semantic_chunk_repository.py:68-114 | a refused chunk changes nothing; an accepted one agrees with its digest and counts, leaves other chunks alone, is invalidated if its text changed, and what is returned is what the tables then hold |
| ChunkRepository.Repository.GetByUuid | src/doc_store_server/db/semantic_chunk_repository.py:120-142 | a missing chunk gives nothing and a stored one exactly what its rows rebuild |
| MigrationRunner.VersionTable.ApplyMigrations | src/doc_store_server/db/migrations.py:37-74 | success is exactly one specified pass none of whose upgrades fails, and records it; a missing dependency or failed upgrade leaves the recorded state unchanged |
| MigrationRunner.AppliesEverything | src/doc_store_server/db/migrations.py:46-72 | a successful call records exactly what ran, and afterwards every file's revision |
| MigrationRunner.SecondCallRunsNothing | src/doc_store_server/db/migrations.py:46-72 | a second call runs nothing |
| MigrationRunner.PassApplies | src/doc_store_server/db/migrations.py:46-72 | what a pass has applied after its first files follows from those files and the applied revisions alone |
| MigrationRunner.LastFileCounts | src/doc_store_server/db/migrations.py:46-51 | of several files with one revision the last one stands for it |
| MigrationRunner.PullInOrder | src/doc_store_server/db/migrations.py:62-68 | missing dependencies run in the order they are listed |
| MigrationRunner.PassInOrder | src/doc_store_server/db/migrations.py:52-72 | files run in their order |
| MigrationRunner.RunsOnceIff | src/doc_store_server/db/migrations.py:48-72 | each missing revision runs exactly once if and only if no self-dependent file is missing when the pass comes to it |
| MigrationRunner.SelfDependentRunsTwice | src/doc_store_server/db/migrations.py:62-72 | a concrete self-dependent file that runs twice |
| MigrationRunner.OrderedIffPullsReady | src/doc_store_server/db/migrations.py:62-72 | upgrades run after their dependencies exactly when, for each dependency a due file pulls forward, its own dependencies are applied or stand before it in that file's list |
| MigrationRunner.TopologicalIsOrdered | src/doc_store_server/db/migrations.py:46-72 | files in topological order are never refused and run in dependency order |
| MigrationRunner.TwoLevelPullIsUnordered | src/doc_store_server/db/migrations.py:62-68 | a concrete directory where a pulled dependency runs before its own dependency |
| MigrationRunner.PassFailsIff | src/doc_store_server/db/migrations.py:52-61 | the call is refused exactly when a file that is missing when the pass comes to it needs an unknown revision |
| ServerManager.RunsAreBracketed | src/doc_store_server/server_manager.py:287-355 | over every sequence of calls and failures the hook calls form sessions and the manager is stopped or running, with an application exactly while running |
| ServerManager.SessionStopsWhatStarted | src/doc_store_server/server_manager.py:382-392 | in a closed session the dependencies that started are stopped once each, in exactly the reverse of the order they started in, whichever stops fail |
| ServerManager.StartRunsOrRollsBack | src/doc_store_server/server_manager.py:287-313 | a valid start of a stopped manager runs it exactly when every dependency starts and an application is returned, and otherwise stops again just those before the first failure; any other start does nothing |
| ServerManager.ShutdownStopsAll | src/doc_store_server/server_manager.py:342-355 | a shutdown of a running manager stops every dependency, last one first, and leaves it stopped without an application; any other does nothing |
| ServerManager.StopErrorsAreFailures | src/doc_store_server/server_manager.py:382-392 | the errors are exactly the failing stops, once each, in the order of the stops |
| ServerManager.Manager.StopDependencies | src/doc_store_server/server_manager.py:382-392 | the reversed loop attempts every stop and collects the errors in that order |
| ServerManager.Manager.StartUp | src/doc_store_server/server_manager.py:287-313 | starts in order, assembles, or rolls back; refuses when not stopped |
| ServerManager.Manager.ShutDown | src/doc_store_server/server_manager.py:342-355 | stops all dependencies and reports the failures; repeated calls do nothing |
| ServerManager.ValidateDependencies | src/doc_store_server/server_manager.py:357-380 | accepts exactly non-blank names with no name and no instance given twice |

## Left out

- Locking, isolation levels and concurrent transactions: a transaction is one step.
- SHA-256, ISO-8601 parsing and time zones: parameters; tamper-proofing is not claimed, since an empty seal is made anew on decoding.
- Request-start resolution of act_date and known_at: it reads the clock and passes given values on.
- Rows that are no mapping of the expected fields, and the texts of error messages: an error is a refusal.
- The registry backfills of the later table migrations: they skip conflicts without a preflight, so only states with disjoint ids are started from.
- Keys from chunk child tables and from files to originals, and registry entries of the temporal family inside the document cascade: further cascades and refusals of the same shape.
- Base64Url.Decode: refuses characters outside both alphabets, which the library decoder skips, and a wrong group length the same way.
- Cascade.Database.Insert: leaves out the order index of a row, unique under its parent and not negative, and the range of its source span.
- Cascade.Database.DeleteRun: the rows whose keys restrict the delete enter as one flag.
- ChunkRepository.Repository.Save: returns what the tables hold; a session that has the root row loaded already may return its old columns, since the row is selected again without a refresh.
- Cursor.DecodedIsConstructible: speaks of the modelled decoder; `Cursor.RebuiltIsConstructible` covers any object another decoder finds.
- Cursor.Decode: refuses non-ASCII payload bytes, JSON whitespace and the names NaN and Infinity, which the library reader accepts; the tokens that encoding gives have none of them.
- Cursor.CarriedSeal: refuses a seal that is neither text nor an empty value, where the library compares its printed form and takes a zero float as empty.
- Values that are no JSON (dates, decimals) inside a query: the library prints them as text first.
- UuidText.Read: does not take the `urn:` and `uuid:` prefixes, nor the signs, spaces and underscores that the integer reader lets pass among 32 characters.
- ChunkMapper.Normal: covers the fields that have a row; the adapter's other fields and its own validation are not part of this model.
- The entity_id column of embeddings, which an insert would have to set, and chunk version ids: rows are keyed by chunk, model, provider, version and dimension.
- Repeated-object checks on listings, text versions, vectorisation, search and the lifecycle services: no hard properties, or only their commands are present.
- ServerManager.Manager.StartUp: does not model the dependency name in the error, which the code does not keep right on assembler failure, nor the comparison of command registries, which enters as a plan's validity.
- ServerManager.ValidateDependencies: covers the dependency list; the type checks of configuration and assembler are left to the caller's types.
- Migration files that do not import or carry no revision: refused before the pass.
- General ordering of migrations as a graph: the runner does not establish it, see `OrderedIffPullsReady`.
