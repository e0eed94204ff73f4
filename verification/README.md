# ProtoRadar

ProtoRadar is a registry for protobuf modules. This project models its stateful core and proves what that
core promises. Each component is imperative where the program is: classes over table fields, methods with
loops, each proved against specification functions whose properties are then proved as lemmas.

- **Outbox lease protocol** (`PublisherOptions`, `OutboxRecords`, `OutboxProtocol`, `OutboxPublisher`,
  `OutboxLeases`, `OutboxProgress`). Each SQL statement is one atomic step; any number of publishers claim,
  dispatch and mark records under a time lease, and may stop at any point. `PublishOnce` is run among
  arbitrary other publishers and shown to extend a protocol run. The mark statements are unfenced, so
  exclusivity and finality hold for records whose marks land inside their leases; the weaker row invariant
  holds in every run.
- **Descriptor save and load** (`DescriptorMetadata`, `DescriptorExtraction`, `DescriptorRows`,
  `DescriptorTables`, `DescriptorKeys`, `DescriptorCounts`, `DescriptorStore`, `DescriptorLoad`,
  `DescriptorOrder`, `DescriptorContents`, `DescriptorReader`, `DescriptorNames`, `DescriptorRebuild`,
  `DescriptorSorted`, `DescriptorFrames`, `DescriptorRoundTrip`, `DescriptorSummary`). A message tree of any
  depth is flattened to rows and rebuilt by map, recursion and enum attachment. Inserts are refused by the
  schema's unique constraints, and queries return rows with equal keys in any order; the condition under which
  a save succeeds, the round trip and the three summaries are proved.
- **Dependency resolver** (`DependencyReferences`, `DependencyIndex`, `DependencyResolver`,
  `DependencyTheorems`, `DependencyMeaning`). The two-pass resolver refines a declarative classification of
  every reference, and the result is characterised by the metadata's fields and the provider rows alone.
- **Governance** (`Policy`, `PolicyTheorems`, `Approvals`, `ApprovalStore`, `ApprovalService`,
  `ApprovalProgress`, `ApprovalRights`, `ApprovalRaces`, `Gate`, `GateApproval`). The policy, the approval
  state machine with its audit trail, concurrent decisions, and the merge-request gate that reads the
  approval.
- **Publish saga** (`ArtifactKeys`, `PublishSaga`, `PublishRaces`). Uploads, one transaction and compensating
  deletes, where every remote call may fail or may land and still report an error; one publish at a time, and
  in every interleaving.
- **Transactional outbox** (`OutboxLockstep`, `OutboxOperations`). Transactions with nesting, and business
  rows in lockstep with outbox records.

`Wrappers`, `Sequences` and `Text` are shared helpers.

## Assumptions about the schema

Taken from the migrations:

- `dedup_key` is unique (`migrations/000001_registry.up.sql:47`); a new outbox row has attempts 0 and null
  claim columns (`migrations/000008_outbox_lifecycle.up.sql:9-20`). Module name is unique, and so is
  (module, version).
- The unique keys of files, services, methods, messages, fields, enums and enum values, and the cascading
  deletes from a file (`migrations/000002_buf_descriptor_metadata.up.sql:29-117`); imports have no key.
- One approval request per report and one decision per requirement
  (`migrations/000007_governance.up.sql:33-35`, `migrations/000007_governance.up.sql:67`). Ids are UUIDs, so
  they are neither empty nor padded.
- No dependency from a module to itself and one row per edge
  (`migrations/000005_dependency_graph.up.sql:15-24`).

Assumed beyond them: text columns are ordered byte by byte (the `C` collation), as Go compares strings, which
in UTF-8 is the order of the characters; under another collation `ORDER BY` gives files, services, methods
and imports in that order instead.

## Findings

- `MarkPublished` and `MarkFailed` check neither status nor claim, so a late mark can take a record out of
  a terminal status (`OutboxLeases.WhenTerminalStatusIsLeft`, `OutboxLeases.LateMarkUndoesPublished`).
- A commit that lands but reports an error makes the publish clean up objects that stored rows name
  (`PublishSaga.PublishKeepsConsistent`); an upload that lands but reports an error is left behind when it
  is the source (always) or the image (`PublishSaga.FailedPublishLeavesNothingNew`).
- Two publishes of the same content that run at the same time can end with a published version whose objects
  the other one has deleted, before or after the commit (`PublishRaces.DeleteBeforeCommit`,
  `PublishRaces.SecondPublishUndoesFirst`). The exact condition over all interleavings is
  `PublishRaces.ConsistentExactlyWhenSafe`; publishes that write no common object meet it
  (`PublishRaces.EveryInterleavingKeepsConsistent`).
- A protobuf enum with `allow_alias` may give one number several names, but the schema has one row per number:
  saving the metadata of such a file fails, and with it the publish (`DescriptorExtraction.AliasedEnumIsRefused`;
  the exact condition is `DescriptorKeys.SavedUnique`).
- A decision reads its request outside the transaction that writes the result. Two concurrent decisions on one
  request lose an update: the last two approvals leave the request pending for ever
  (`ApprovalRaces.ApprovalsPassEachOther`), and an approval sets a rejected request back to pending
  (`ApprovalRaces.ApprovalPassesRejection`). The exact condition is `ApprovalRaces.ValidExactlyWhenUndisturbed`.
  No race approves a request too early (`ApprovalRaces.ApprovedMeansApproved`), so the gate stays safe
  (`GateApproval.PassedGateSurvivesRaces`).
- The dedup key of a dependencies-updated event has no part that changes between rebuilds, so rebuilding a
  version's dependencies by hand after a publish always fails (`OutboxLockstep.RebuildAfterPublishFails`).
- `docs/architecture.md:136` lists approval request status changes among the outbox events; the code writes
  no such record, only an audit event, and the model follows the code.

## Model

| member | source | states |
|---|---|---|
| PublisherOptions.NormalizePublisherOptions | internal/outbox/publisher.go:182-212 | Every field ends positive and the cap is at least the first delay; set fields are kept, unset ones get the default; options that are already normal are returned as they are, so normalising is idempotent. |
| PublisherOptions.RetryBackoffIsCappedExponential | internal/outbox/publisher.go:169-180 | For every attempt count, including those below one, the delay is min(initial * 2^(max(attempts,1)-1), cap) and lies between the first delay and the cap. |
| PublisherOptions.RetryBackoffMonotone | internal/outbox/publisher.go:169-180 | More attempts never shorten the delay. |
| PublisherOptions.RetryBackoffDoubles | internal/outbox/publisher.go:169-180 | The first delay is the initial one, each further attempt doubles it until the cap. |
| OutboxRecords.SelectEarliest | internal/repository/postgres/outbox.go:63-91 | The claim picks distinct claimable, unlocked rows, at most the batch size, and passes over none for a later one or while there is room. |
| OutboxRecords.OutboxTable.Create | internal/repository/postgres/outbox.go:32-61 | Inserts a pending row with no attempts and no claim, exactly when no row has the dedup key; otherwise nothing changes. |
| OutboxRecords.OutboxTable.ClaimPending | internal/repository/postgres/outbox.go:63-116 | The selected rows become processing with both claim columns set and one more attempt; every other row is untouched. |
| OutboxRecords.OutboxTable.MarkPublished | internal/repository/postgres/outbox.go:118-132 | Sets published and clears the claim of the named row whatever its status and owner; an unknown id is an error that changes nothing. |
| OutboxRecords.OutboxTable.MarkFailed | internal/repository/postgres/outbox.go:134-150 | Sets failed or dead by the row's own attempts, the next instant only when not dead, and clears the claim, whatever the row's status and owner. |
| OutboxProtocol.ClaimOrigin | internal/outbox/publisher.go:112-129 | A claim held after a step was made by that step or was held before it; a mark only moves its own publisher's queue on. |
| OutboxProtocol.RowsGrow | internal/repository/postgres/outbox.go:69-91 | No step deletes a record, and attempts grow by one exactly when the step claims the record. |
| OutboxProtocol.InvariantStep | internal/repository/postgres/outbox.go:68-150 | Each protocol step keeps the row and claim invariants, late marks included. |
| OutboxProtocol.EveryRunKeepsInvariant | internal/repository/postgres/outbox.go:68-150 | In every run of any number of publishers, late marks included: pending iff attempts is 0, processing iff both claim columns are set, failed implies 0 < attempts < max, dead implies attempts >= max, published implies some dispatch succeeded; no two claims carry the same record and attempt. |
| OutboxPublisher.World.Claim | internal/outbox/publisher.go:112-117 | The claim statement takes the earliest claimable rows that no other transaction has locked, up to the batch size, as the protocol's claim step, and the caller's queue is what it claimed. |
| OutboxPublisher.World.MarkPublished | internal/outbox/publisher.go:136-141 | Marking the head of the queue published is the protocol's step. |
| OutboxPublisher.World.MarkFailed | internal/outbox/publisher.go:150-157 | Marking the head failed with the retry delay for the claimed attempt is the protocol's step. |
| OutboxPublisher.DispatchRecord | internal/outbox/publisher.go:132-167 | One record, whatever other publishers do in between: always a dispatch, then the mark its result calls for, unless the dispatch failed with the context ended or the mark statement fails without effect; the pass goes on exactly when the mark is reported done. |
| OutboxPublisher.DispatchAll | internal/outbox/publisher.go:121-129 | The claimed records are handled in order up to the first whose dispatch or mark ends the pass, or before which the context ended, and not beyond; success exactly when there is none. |
| OutboxPublisher.PublishOnce | internal/outbox/publisher.go:104-130 | A pass takes no step exactly when it is disabled, cancelled or cannot claim. Otherwise it extends the installation's run by one claim of the earliest claimable unlocked rows at the clock reading it began with, then per record a dispatch and the matching mark up to the first record that ends it. It completes exactly when the claim is reported done, the context lasts and every mark is tried and done; no claim is held afterwards. |
| OutboxLeases.LeaseInvariantStep | internal/repository/postgres/outbox.go:118-150 | A step that is not a late mark of the record keeps its lease invariant: every live claim is the one the row was last claimed by. |
| OutboxLeases.LeaseIsExclusive | internal/repository/postgres/outbox.go:69-91 | In every run where each mark of a record lands before the marker's lease ends, at most one publisher holds an unexpired lease on it. |
| OutboxLeases.TerminalIsFinal | internal/repository/postgres/outbox.go:118-150 | In such runs a published or dead record never changes again, in any column. |
| OutboxLeases.WhenTerminalStatusIsLeft | internal/repository/postgres/outbox.go:119-145 | Without that discipline a step takes a record out of a terminal status exactly when it is a mark of that record whose outcome disagrees with the status. |
| OutboxLeases.LateMarkUndoesPublished | internal/repository/postgres/outbox.go:134-150 | A run in which a late failure mark turns a published record back into a failed one: the marks check neither status nor claim. |
| OutboxProgress.AttemptsCountClaims | internal/repository/postgres/outbox.go:69-91 | The attempts column is the number of claims, in every run. |
| OutboxProgress.ClaimsAreBounded | internal/repository/postgres/outbox.go:69-91 | Claims never exceed maxAttempts plus the number of reclaims of expired leases. |
| OutboxProgress.RecordSettles | internal/repository/postgres/outbox.go:134-150 | Without reclaims a record is claimed at most maxAttempts times, and the mark of the last one leaves it published or dead. |
| OutboxProgress.EveryRecordWakes | internal/repository/postgres/outbox.go:69-80 | Every record that is not settled has one instant from which, and only from which, it can be claimed. |
| OutboxProgress.NoRecordIsLost | internal/outbox/publisher.go:104-130 | However its publisher went away, an untouched unsettled record can be claimed by any idle publisher exactly once its instant has come, even when every other record is locked. |
| OutboxProgress.ClaimTakesEarliest | internal/repository/postgres/outbox.go:63-91 | In every run a claim takes at most a batch of different records, each pending or failed with its instant come or processing with its lease over; it leaves such a record behind, unlocked, only when its batch is full of records that are not later. |
| OutboxProgress.NoRecordIsPassedOver | internal/repository/postgres/outbox.go:63-91 | While nobody touches an unsettled record, any claim takes it from its instant on and not before, unless another transaction has it locked or the batch is full of records that are not later. |
| OutboxProgress.ClaimSetsWake | internal/repository/postgres/outbox.go:82-91 | A claimed record wakes at the end of its lease. |
| OutboxProgress.CreateWrites | internal/repository/postgres/outbox.go:32-61 | A creation step adds one pending row whose instants are all the event's. |
| OutboxProgress.ClaimWrites | internal/repository/postgres/outbox.go:82-91 | A claim step writes its clock reading, the lease's end and one more attempt, and nothing else. |
| OutboxProgress.MarkWrites | internal/repository/postgres/outbox.go:118-150 | A mark step settles the publisher's current record column by column: published with the first publication's instant kept; failed and due at the clock reading plus the retry delay for the claimed attempt; or dead with the due instant kept; the update instant is the clock reading, and errors are cut at 4096. |
| OutboxProgress.FailureSetsWake | internal/outbox/publisher.go:150-157 | Below the attempt limit a failed record wakes exactly at the failure's clock reading plus the retry delay for the claimed attempt; at the limit, never. |
| OutboxProgress.RetryIsExact | internal/outbox/publisher.go:150-157 | With timely marks, a failed record can be claimed, until its next claim, exactly from the failure instant plus the retry delay for the claims made so far, and never at the attempt limit. |
| OutboxProgress.RetryWaits | internal/outbox/publisher.go:150-157 | With timely marks a failed record is not claimed again before its failure instant plus the retry delay for its attempts. |
| DescriptorMetadata.SummaryCounter.AddMessageSummary | internal/domain/descriptor_metadata.go:104-113 | The recursive counter adds exactly what the message and everything nested in it hold. |
| DescriptorMetadata.Summarize | internal/domain/descriptor_metadata.go:80-102 | The summary is the fold over the whole forest; packages are counted once each, without the empty one. |
| DescriptorCounts.SummaryMeans | internal/domain/descriptor_metadata.go:80-118 | Each of the nine counters is the length of a list, or the size of the set of non-empty packages. |
| DescriptorCounts.ListsMean | internal/domain/descriptor_metadata.go:104-118 | These lists hold exactly the services of the files, the messages at any depth, and the enums of files and of messages at any depth. |
| DescriptorExtraction.ExtractEnums | internal/infrastructure/bufcli/descriptor.go:141-162 | Enums get the full name of their scope joined with their name. |
| DescriptorExtraction.ExtractMessages | internal/infrastructure/bufcli/descriptor.go:75-91 | Messages get full names from package and enclosing message, at every depth. |
| DescriptorExtraction.FileExtracted | internal/infrastructure/bufcli/descriptor.go:16-30 | Extraction keeps everything a file descriptor holds, in order and at every depth, fields and enum values included, and names it below its package and enclosing messages. |
| DescriptorExtraction.ExtractionIsWellNamed | internal/infrastructure/bufcli/descriptor.go:75-91 | With non-empty message names, the extracted tree is well named exactly when every name is dot-free and siblings differ. |
| DescriptorExtraction.ExtractedMetadataRoundTrips | internal/infrastructure/bufcli/descriptor.go:75-169 | For legal names and any nesting, the database takes the extracted metadata exactly when its keys differ where the unique constraints say so, and loading then gives it back with every level in load order. |
| DescriptorExtraction.AliasedEnumIsRefused | migrations/000002_buf_descriptor_metadata.up.sql:110-117 | A legal file whose enum gives one number two names, as allow_alias permits, is refused whatever the database holds. |
| DescriptorStore.MetadataStore.CreateProtoMessage | internal/repository/postgres/descriptor_metadata.go:160-185 | The recursive insert adds the message's row, fields, nested messages and enums, parents before children; it succeeds exactly when the tables with all of them violate no unique constraint. |
| DescriptorStore.MetadataStore.CreateProtoEnums | internal/repository/postgres/descriptor_metadata.go:187-209 | Appends one row per enum, with its values, under the file, exactly when no enum name of the version and no number of an enum repeats. |
| DescriptorStore.MetadataStore.CreateProtoServices | internal/repository/postgres/descriptor_metadata.go:136-158 | Appends one row per service, with its methods, exactly when no service name of the version and no method name of a service repeats. |
| DescriptorStore.MetadataStore.Save | internal/repository/postgres/descriptor_metadata.go:20-50 | Succeeds exactly when paths, service, message and enum names differ over the version, method names in each service, field numbers in each message and value numbers in each enum. Then the version's old rows are gone with what hangs on them and the rows of each file follow in order; otherwise nothing changes. |
| DescriptorKeys.SavedUnique | migrations/000002_buf_descriptor_metadata.up.sql:29-117 | The saved tables violate no unique constraint exactly when the metadata's own names and numbers differ where they must: nothing stored before matters. |
| DescriptorCounts.StorableMeans | migrations/000002_buf_descriptor_metadata.up.sql:29-117 | Metadata that the database takes has no path twice, no two services, messages or enums of one full name, no method name twice in a service, and no number twice in a message at any depth or in an enum. |
| DescriptorKeys.OwnedRowsDistinct | migrations/000002_buf_descriptor_metadata.up.sql:59-117 | Rows of different owners never clash: the keys of methods, fields and values are distinct exactly when they are so within each owner. |
| DescriptorKeys.ViolationStays | internal/repository/postgres/descriptor_metadata.go:20-50 | A violated constraint stays violated by every later insert, so stopping at the first refused row loses no success. |
| DescriptorKeys.SavedSound | internal/repository/postgres/descriptor_metadata.go:20-50 | A save that is taken keeps acyclic parents, attached rows and every unique constraint. |
| DescriptorTables.AddFileAppends | internal/repository/postgres/descriptor_metadata.go:29-46 | Saving a file appends to each of the eight tables exactly the rows its tree flattens to, and advances the ids by their number. |
| DescriptorTables.SavedValid | internal/repository/postgres/descriptor_metadata.go:20-50 | Saving keeps the tables consistent; in particular parent links stay acyclic, so every later load terminates. |
| DescriptorLoad.EnumBelongsToMessage | internal/repository/postgres/descriptor_metadata.go:461-472 | The recursive search attaches the enum to the innermost message whose dotted name starts its full name, in place, and says whether there is one. |
| DescriptorLoad.BuildMessageTree | internal/repository/postgres/descriptor_metadata.go:439-445 | The children map groups the loaded rows by parent, and the rebuild from it is the rebuild by selection. |
| DescriptorLoad.BuildMessageChildren | internal/repository/postgres/descriptor_metadata.go:447-459 | The recursion over the map ends, because ids grow along parent links, and gives each parent's children in name order, whichever way the sort breaks ties. |
| DescriptorLoad.LoadProtoEnums | internal/repository/postgres/descriptor_metadata.go:385-414 | Each loaded enum is attached in turn; those of no message are the file's. |
| DescriptorReader.GetByModuleVersion | internal/repository/postgres/descriptor_metadata.go:52-81 | Whatever order the queries give rows with equal keys, the answer is every file of the version, in path order, and at any depth field and enum value numbers ascend and names are in code point order; it is not found exactly when no file row names the version. Only imports with equal paths may come in any order. |
| DescriptorOrder.LoadIsInOrder | internal/repository/postgres/descriptor_metadata.go:211-459 | Whatever the tables hold, a load is in order at every level: numbers ascend, and of two names the first different character decides, a prefix first. |
| DescriptorNames.MatchIsUnique | internal/repository/postgres/descriptor_metadata.go:461-472 | With dot-free names at most one message of a scope matches an enum. |
| DescriptorNames.ScopeEnumMatchesNone | internal/repository/postgres/descriptor_metadata.go:461-472 | An enum of the enclosing scope matches none of the scope's messages. |
| DescriptorNames.AttachRebuilt | internal/repository/postgres/descriptor_metadata.go:461-472 | Attaching an enum that a message at any depth declares puts it into that message and nowhere else. |
| DescriptorRebuild.NodesNumbered | internal/repository/postgres/descriptor_metadata.go:160-185 | Insertion order numbers the flattened tree consecutively, and fields go with their message. |
| DescriptorRebuild.RebuildsForest | internal/repository/postgres/descriptor_metadata.go:439-459 | From rows that hold a forest the rebuild gives the forest, ordered at every level. |
| DescriptorRebuild.EveryScopeIsExact | internal/repository/postgres/descriptor_metadata.go:385-414 | In the list of all enums of a file every message owns exactly its own enums, in their order. |
| DescriptorSorted.EnumsReturn | internal/repository/postgres/descriptor_metadata.go:385-414 | After all enums are attached every message at any depth has its own enums back and the file keeps exactly its own. |
| DescriptorFrames.BoundDoesNotMatter | internal/repository/postgres/descriptor_metadata.go:447-459 | The rebuilt tree does not depend on the termination bound. |
| DescriptorFrames.AddFileKeeps | internal/repository/postgres/descriptor_metadata.go:20-50 | Saving a file changes nothing a load of an earlier file reads. |
| DescriptorFrames.DeleteKeeps | internal/repository/postgres/descriptor_metadata.go:21-25 | The cascading delete of one version removes nothing a load of another version reads. |
| DescriptorRoundTrip.FileRoundTrip | internal/repository/postgres/descriptor_metadata.go:160-209 | A well-named file loads as it was saved, every level in load order. |
| DescriptorRoundTrip.LoadAfterSave | internal/repository/postgres/descriptor_metadata.go:20-81 | The database takes a version's metadata exactly when its keys differ where they must; then loading gives the saved metadata back, each level of each file rearranged into its order, for any nesting, and not found exactly when no file was saved. |
| DescriptorContents.SortedSame | internal/repository/postgres/descriptor_metadata.go:20-81 | Putting every level in order neither adds nor loses anything at any depth: the same fields, values, methods, imports, messages and enums. |
| DescriptorRoundTrip.OtherVersionsKeepTheirLoad | internal/repository/postgres/descriptor_metadata.go:20-50 | Saving one version leaves every other version's load unchanged, whatever the names. |
| DescriptorTables.SavedConsistent | internal/repository/postgres/descriptor_metadata.go:20-50 | Every service, message and enum row stays attached to a file of its own version. |
| DescriptorSummary.StoredSummaryIsSummary | internal/repository/postgres/descriptor_metadata.go:83-111 | The counting query over the flat rows equals the recursive summary of what was saved, whatever the names. |
| DescriptorSummary.SortedSummary | internal/domain/descriptor_metadata.go:80-118 | Reordering every level leaves the summary unchanged. |
| DescriptorSummary.SummariesAgree | internal/repository/postgres/descriptor_metadata.go:83-111 | The query, the summary of the saved metadata and the summary of the reloaded metadata are equal. |
| Sequences.OrderingIsUnique | internal/repository/postgres/descriptor_metadata.go:211-232 | When no two rows compare equal there is one ordering of them: with the unique constraints this fixes every query's answer but that for imports. |
| DependencyIndex.AddMessageSymbols | internal/usecase/dependencygraph/service.go:410-418 | Adds the normalised names of a message, its nested messages and their enums. |
| DependencyIndex.CollectOwnNames | internal/usecase/dependencygraph/service.go:281-292 | The two sets hold exactly the paths and the names, at any depth, that the metadata declares, before anything is resolved. |
| DependencyIndex.IndexFiles | internal/usecase/dependencygraph/service.go:212-214 | A lookup in the file map answers as a scan over the provider files would, in row order. |
| DependencyIndex.IndexSymbols | internal/usecase/dependencygraph/service.go:215-217 | A lookup in the symbol map answers as a scan over normalised symbol names would. |
| DependencyIndex.BuildProviderIndex | internal/usecase/dependencygraph/service.go:185-219 | The index answers for exactly the rows of other modules' latest published versions. |
| DependencyReferences.LastDot | internal/usecase/dependencygraph/service.go:420-427 | The last dot: nothing after it holds another one, and -1 means there is none. |
| DependencyResolver.Resolution.AddDependency | internal/usecase/dependencygraph/service.go:227-258 | Adds one row unless the provider is the consumer or the key was seen; fails exactly when the id it then needs cannot be had. |
| DependencyResolver.Resolution.AddUnresolved | internal/usecase/dependencygraph/service.go:260-279 | Adds one unresolved row, or fails exactly when its id cannot be had. |
| DependencyResolver.Resolution.ResolveImport | internal/usecase/dependencygraph/service.go:295-318 | An import is resolved as the classification of its path demands. |
| DependencyResolver.Resolution.ResolveSymbolReference | internal/usecase/dependencygraph/service.go:361-379 | A symbol is resolved as the classification of its normalised name demands. |
| DependencyResolver.Resolution.ResolveMessageReferences | internal/usecase/dependencygraph/service.go:344-359 | A message's field types, then those of everything nested in it, in order. |
| DependencyResolver.ResolveDependencies | internal/usecase/dependencygraph/service.go:221-338 | The resolver refines the classification: its two lists are the expected ones, in reference order, and it fails exactly when an id it needs cannot be had. |
| DependencyTheorems.ClassifyCountsRows | internal/usecase/dependencygraph/service.go:302-317 | A reference that asks for a provider is missing, uniquely provided or ambiguous exactly as no row, one row or two different rows of the catalog provide it. |
| DependencyTheorems.UnresolvedIsExact | internal/usecase/dependencygraph/service.go:260-318 | The unresolved list holds exactly the references that ask for a provider and do not have exactly one, with the right reason. |
| DependencyTheorems.UnresolvedInOrder | internal/usecase/dependencygraph/service.go:294-335 | The unresolved list keeps the order and the repetitions of the references. |
| DependencyTheorems.DependenciesAreExact | internal/usecase/dependencygraph/service.go:227-258 | With NUL-free version ids the dependency list holds exactly the unique provisions by other modules, each once: dropping repeated keys loses nothing. |
| DependencyTheorems.ConsumerIsNoProvider | internal/usecase/dependencygraph/service.go:227-230 | No dependency names the consumer as provider. |
| DependencyTheorems.DependenciesFitTheTable | migrations/000005_dependency_graph.up.sql:3-24 | Every list the resolver produces satisfies the table's self-edge check and its unique edge index, whatever characters the ids hold. |
| DependencyTheorems.DependencyKeyIsInjective | internal/usecase/dependencygraph/service.go:429-431 | For NUL-free ids and path the joined key determines its five parts. |
| DependencyTheorems.SameKeySameLink | internal/usecase/dependencygraph/service.go:227-257 | Two resolved dependencies with the same key agree in every field but id: path and symbol may hold any character. |
| DependencyTheorems.ClassifyIgnoresOrder | internal/usecase/dependencygraph/service.go:281-292 | The order of the metadata files changes no reference's class, because own names are collected first. |
| DependencyTheorems.PermutingFilesKeepsTheResult | internal/usecase/dependencygraph/service.go:281-335 | Permuting the metadata files changes neither the dependencies nor the multiset of unresolved references. |
| DependencyMeaning.ReferencesAreExact | internal/usecase/dependencygraph/service.go:294-359 | The references are exactly the imports of the files, the types of the fields of messages at any depth, and the input and output types of the methods. |
| DependencyMeaning.ReferencesAreCounted | internal/usecase/dependencygraph/service.go:294-359 | There are as many as imports, fields, and two for each method, in the metadata's summary. |
| DependencyMeaning.FileReferencesInOrder | internal/usecase/dependencygraph/service.go:294-335 | In each file the imports come first, in order, then field types, then methods. |
| DependencyMeaning.ImportDependencies | internal/usecase/dependencygraph/service.go:295-318 | A link to a provider for a path is there exactly when some file imports the path, it is neither under google/protobuf/ nor an own file, and exactly one provider row, of another module, has it. |
| DependencyMeaning.SymbolDependencies | internal/usecase/dependencygraph/service.go:361-379 | A link for a symbol is there exactly when some field, or some method, refers to it, it is neither empty, under google.protobuf., nor declared by the consumer, and exactly one provider row, of another module, has it. |
| DependencyMeaning.DependencyForms | internal/usecase/dependencygraph/service.go:227-257 | Every dependency has one of these two forms, with its reason, path, package and symbol. |
| DependencyMeaning.ImportGaps | internal/usecase/dependencygraph/service.go:306-317 | An import is unresolved exactly when it asks for a provider and no row has it, or more than one, with that reason. |
| DependencyMeaning.SymbolGaps | internal/usecase/dependencygraph/service.go:368-379 | A symbol is unresolved exactly when it asks for a provider and no row has it, or more than one, with that reason. |
| DependencyMeaning.OwnSymbolMeans | internal/usecase/dependencygraph/service.go:281-292 | The consumer declares a symbol when a service, a message at any depth, or an enum of a file or such a message has the name. |
| DependencyMeaning.PackageMeans | internal/usecase/dependencygraph/service.go:420-427 | The package of a symbol is what comes before its last dot; without a dot there is none. |
| DependencyMeaning.CatalogRowsMean | internal/usecase/dependencygraph/service.go:185-219 | A provider row counts exactly when its version is the latest published one of another module. |
| Policy.RequirementKeyIsInjective | internal/usecase/governance/policy.go:162-168 | Two requirements share a key exactly when kind and target agree. |
| Policy.ResultBuilder.AddReason | internal/usecase/governance/policy.go:153-160 | Appends a reason unless it is there. |
| Policy.ResultBuilder.AddRequirement | internal/usecase/governance/policy.go:132-151 | Adds a requirement unless its key was seen, with a warning when its owners include no eligible one; warnings, seen keys and reasons stay in step. |
| Policy.ResultBuilder.HasEligibleOwner | internal/usecase/governance/policy.go:170-180 | True exactly when some owner row has the owner role, or the maintainer role where the configuration counts it. |
| Policy.ProductionRuntimeModules | internal/usecase/governance/policy.go:190-206 | The modules with a runtime use in some production environment, names compared trimmed and in lower case. |
| Policy.EvaluatePolicy | internal/usecase/governance/policy.go:56-130 | Disabled or not breaking: nothing required. Otherwise one requirement per key in order, the count is their number, the warnings are theirs, and each reason that applies appears once. |
| Policy.RequirementsAreExact | internal/usecase/governance/policy.go:101-128 | The keys are pairwise different and equal the changed module's owner key plus one consumer key per affected module used in production. |
| Policy.OneWarningPerOwnerlessRequirement | internal/usecase/governance/policy.go:138-149 | A requirement carries one warning when the first candidate of its key has no eligible owner, and none otherwise. |
| PolicyTheorems.OwnerRequirementExactly | internal/usecase/governance/policy.go:74-99 | There is an owner requirement exactly when governance is enabled and the report breaks, and it is for the report's own module. |
| PolicyTheorems.ConsumerRequirementExactly | internal/usecase/governance/policy.go:101-128 | There is a consumer requirement for an id, or else a name, exactly when governance is enabled, the report breaks, and an affected module of that id or name is marked as used in production or has a runtime item in a production environment, compared without space and case; production and prod when none is configured. |
| PolicyTheorems.RequirementRoles | internal/usecase/governance/policy.go:132-188 | Every requirement allows owners, and maintainers exactly when configured; it has one warning about itself exactly when no row of its owners has an allowed role. |
| Approvals.StatusAfterMeans | internal/usecase/governance/approval_service.go:248-258 | The status computed for a decision is the status of the requirements after it. |
| Approvals.DecisionKeepsRequestValid | internal/usecase/governance/approval_service.go:248-272 | A decision on an undecided requirement of a pending request keeps status, counters and decisions in agreement. |
| Approvals.StatusMeaning | internal/usecase/governance/approval_service.go:407-453 | Not required iff no requirements; approved iff some and all are approved; rejected iff exactly one is rejected; otherwise pending, with none rejected. |
| Approvals.DecidedExactlyOnce | internal/usecase/governance/approval_service.go:260-269 | A requirement is non-pending exactly when one decision exists for it, and its status is that decision's value. |
| Approvals.ApprovedMeansDecided | internal/usecase/governance/approval_service.go:260-272 | Every requirement of an approved request has an approving decision. |
| Approvals.DecisionKeepsTrailValid | internal/usecase/governance/approval_service.go:273-280 | The audit events of a decision extend the trail correctly: a status change last, exactly when the decision settles the request. |
| Approvals.ReplayReproduces | internal/usecase/governance/approval_service.go:553-588 | Replaying the trail from undecided requirements reproduces requirement statuses, request status and counters; there is one status-changed event exactly when the request is approved or rejected. |
| ApprovalService.Service.AddDecision | internal/repository/postgres/governance.go:212-226 | Inserts a decision unless the requirement has one. |
| ApprovalService.Service.UpdateRequirementStatus | internal/repository/postgres/governance.go:228-241 | Sets the status of the requirement with the id, or reports that there is none. |
| ApprovalService.Service.UpdateRequestStatus | internal/repository/postgres/governance.go:243-256 | Sets status and both counters of the request. |
| ApprovalService.Service.HasOwnerRole | internal/repository/postgres/governance.go:87-119 | True exactly when an owner row of the module has the subject as an owner, or as a maintainer where the configuration counts those. |
| ApprovalService.Service.ActorCanDecide | internal/usecase/governance/approval_service.go:494-510 | The actor may decide when, as a user or as a team, it holds an allowed role on the target module; a failed lookup counts as no. |
| ApprovalService.Service.AllRequirementsApprovedAfter | internal/usecase/governance/approval_service.go:512-522 | True exactly when every other requirement is approved or waived. |
| ApprovalService.Service.ReceivedApprovalsAfter | internal/usecase/governance/approval_service.go:524-536 | The number of approved requirements once the decision is in. |
| ApprovalService.Service.CheckDecision | internal/usecase/governance/approval_service.go:198-228 | The checks in their order, each with its error. |
| ApprovalService.AcceptedExactly | internal/usecase/governance/approval_service.go:198-228 | When no read fails, the checks pass exactly when the store's decision step is enabled and the request named by the caller, if any, is the requirement's. |
| ApprovalRights.TakenExactlyWhenOpen | internal/usecase/governance/approval_service.go:198-228 | When no read fails, a decision is taken exactly when both ids are given, the comment has at most 2000 characters, and the named requirement is undecided in a pending request and targets a module with an owner row, or a counted maintainer row, for the caller. |
| ApprovalRights.FailedLookupsAreSkipped | internal/usecase/governance/approval_service.go:494-510 | A failed owner lookup hides the rows of its kind of subject, and only those. |
| ApprovalRights.DecisionChangesOneRequirement | internal/usecase/governance/approval_service.go:260-272 | A decision changes only its own request: there, only the decided requirement's status, and the decision is added last. |
| ApprovalService.Service.DecisionTransaction | internal/usecase/governance/approval_service.go:260-292 | The statements go through exactly when none of them fails, and then leave the decided request and its audit events. |
| ApprovalService.Service.RecordDecision | internal/usecase/governance/approval_service.go:198-301 | A refused call and one whose transaction does not commit change nothing, and so does one that no owner row of the target, or counted maintainer row, permits; otherwise the store takes the decision's step, even when the commit is reported as failed or reading back fails; success is reported exactly when neither happens, and the decision is then the request's last. |
| ApprovalService.Service.CreateApprovalRequest | internal/usecase/governance/approval_service.go:103-145 | Returns the existing request or creates the one the policy demands; a failed call changes nothing unless its commit took effect. |
| ApprovalRights.PolicySeesOwners | internal/usecase/governance/approval_service.go:342-405 | The policy sees exactly the owner rows of the changed module and, for each affected module with an id, those of that module. |
| ApprovalRights.CreatedFollowsPolicy | internal/usecase/governance/approval_service.go:407-453 | A created request is for the report and its module, pending unless nothing is required, with one undecided requirement per policy requirement, in order, for the same approval and target. |
| ApprovalStore.StepKeepsStoreValid | internal/usecase/governance/approval_service.go:260-292 | Each creation, decision and owner change keeps every request, its decisions and its audit trail consistent, and ids distinct. |
| ApprovalStore.EveryRunKeepsStoreValid | internal/usecase/governance/approval_service.go:198-301 | In every reachable state each request's status, counters, decisions and audit trail agree. |
| ApprovalProgress.EligibleOwnerCanDecide | internal/usecase/governance/approval_service.go:494-510 | Somebody can decide a requirement exactly when its target is known and has an eligible owner: the policy's test and the actor check agree. |
| ApprovalProgress.NoWarningMeansDecidable | internal/usecase/governance/policy.go:138-149 | A new request has no missing-owner warning exactly when somebody can decide each of its requirements. |
| ApprovalProgress.PendingCanBeApproved | internal/usecase/governance/approval_service.go:248-258 | From a pending request whose requirements can all be decided, approvals that the service takes lead to approved. |
| ApprovalProgress.NoWarningMeansApprovable | internal/usecase/governance/approval_service.go:198-301 | While owners are unchanged, a request created without a warning can be approved from every pending state it reaches, by decisions that the service takes. |
| ApprovalProgress.WarningMeansNeverApproved | internal/usecase/governance/approval_service.go:198-301 | While owners are unchanged, a request created with a warning is never approved. |
| ApprovalRaces.WriteIsExact | internal/usecase/governance/approval_service.go:248-272 | A decision computed from an earlier reading keeps status, counters and decisions in agreement exactly when the requirements are still as it has read them. |
| ApprovalRaces.ValidExactlyWhenUndisturbed | internal/usecase/governance/approval_service.go:198-272 | Over every run of concurrent calls on a request, every state is consistent exactly when every decision was committed on the requirements that its call had read. |
| ApprovalRaces.ApprovedMeansApproved | internal/usecase/governance/approval_service.go:244-259 | Over every run of concurrent calls, lost updates included: an approved request has only approved requirements, each by a decision of its own, and nothing changes any more; a request that needs no approval has no requirement. |
| ApprovalRaces.CreatedIsOpen | internal/usecase/governance/approval_service.go:103-145 | A created request is consistent and any two of its requirements are open, so the two runs below start from states that occur. |
| ApprovalRaces.ApprovalsPassEachOther | internal/usecase/governance/approval_service.go:248-272 | A run of two concurrent approvals of any two open requirements: both are taken, and the counter stays one short. If they were the last two, every requirement is approved, but the request is pending and no call can change it any more. |
| ApprovalRaces.ApprovalPassesRejection | internal/usecase/governance/approval_service.go:248-272 | A run of a rejection and a concurrent approval of any two open requirements: the rejected request is pending again, for ever if they were the last two. |
| Gate.SelectExistingNote | internal/format/gitlabmr/renderer.go:103-135 | The selected comment is a marked one, the latest by time with the last of equals, or the last marked one when none has a time; none exactly when no comment is marked. |
| Gate.SelectedIsLatest | internal/format/gitlabmr/renderer.go:103-135 | No marked comment is more recent than the selected one, a comment's time being its update or else its creation time. |
| Gate.MarkerNamesOneModule | internal/format/gitlabmr/renderer.go:95-97 | For names without space and angle brackets, a comment marked for one module is never found for another. |
| Gate.Runner.UpsertComment | internal/usecase/gitlabmr/runner.go:254-271 | Rewrites the selected comment or adds one when there is none; other comments are untouched, and a refused call changes nothing. |
| Gate.Runner.FetchGovernanceStatus | internal/usecase/gitlabmr/runner.go:314-335 | The status found, or created when governance is enabled and none exists; unavailable is tolerated exactly when governance is disabled or there is no client or report id. |
| Gate.Runner.FinalState | internal/usecase/gitlabmr/runner.go:343-365 | Success with exit code 0 exactly when the gate opens; with governance disabled, exactly when the report is not breaking. |
| Gate.DisabledGateFollowsReport | internal/usecase/gitlabmr/runner.go:343-349 | With governance disabled an answered run's gate opens exactly when the report's status is not breaking. |
| Gate.EnabledGateFollowsGovernance | internal/usecase/gitlabmr/runner.go:350-365 | With governance enabled and an answer, approved and not required open the gate, pending and rejected close it, and for any other status, or without client or report id, the report decides. |
| Gate.WhenReported | internal/usecase/gitlabmr/runner.go:314-335 | A run can report exactly when the check answered, the comment was written, and governance is off, out of reach, or answered, if need be by creating the request. |
| Gate.Runner.HandleError | internal/usecase/gitlabmr/runner.go:225-252 | Exit code 2, the error report upserted as a comment, and at most a failed status. |
| Gate.Runner.Run | internal/usecase/gitlabmr/runner.go:150-195 | Exits 0 or 1 only for valid input and an answered check; then, with governance disabled, 0 exactly when the report is not breaking, and with it enabled a report that is not breaking fails exactly on pending or rejected; 2 in every other case. The commit goes through running to success on 0 and failed on 1, or to failed when the run could not report, as far as GitLab takes the calls; invalid input touches nothing. |
| GateApproval.OpenGateMeansReleased | internal/usecase/gitlabmr/runner.go:314-365 | With governance enabled, an answered run on a breaking report opens the gate exactly when the stored request of the report's id is approved or needs no approval. |
| GateApproval.PassedGateMeansApproved | internal/usecase/gitlabmr/runner.go:150-195 | When such a run passes, every requirement of the report's request has an approving decision, in every reachable state of the approval service; when the server's policy is enabled and it holds the report as breaking, the request is approved by at least one decision. |
| GateApproval.PassedGateSurvivesRaces | internal/usecase/gitlabmr/runner.go:150-195 | The same while decisions on the report's request interleave in any way after its creation, lost updates included. |
| ArtifactKeys.SourceKeyIsInjective | internal/storage/key.go:14-17 | Source keys determine module, version (with any characters) and checksum. |
| ArtifactKeys.ImageKeyIsInjective | internal/storage/key.go:19-22 | Image keys determine module, version and checksum. |
| ArtifactKeys.SourceKeyIsNoImageKey | internal/storage/key.go:14-22 | No source key is an image key. |
| ArtifactKeys.KeyLayout | internal/storage/key.go:14-22 | The layout of the two keys. |
| PublishSaga.Registry.CleanupUploadedArtifacts | internal/usecase/registry/service.go:944-953 | Deletes the named objects one after another, going on when a delete fails, and touches no other. |
| PublishSaga.Registry.PublishModuleVersion | internal/usecase/registry/service.go:269-468 | Uploads, transaction and compensating deletes in order, for every combination of calls that fail or land with an error. A bad name, a blank version, an unknown module, a version that exists and a failed build are refused in this order and touch nothing; success leaves both bodies under the row's keys. |
| PublishSaga.OldRowsStayStored | internal/usecase/registry/service.go:337-350 | Whatever fails in a publish, every version stored before keeps its objects: cleanup never removes another version's object. |
| PublishSaga.PublishKeepsConsistent | internal/usecase/registry/service.go:337-458 | After a publish every artifact row names a stored object with its checksum, exactly unless a commit landed, reported an error and was followed by a delete that landed. |
| PublishSaga.FailedPublishKeepsRows | internal/usecase/registry/service.go:399-458 | A failed publish leaves the rows unchanged exactly unless the commit landed. |
| PublishSaga.FailedPublishLeavesNothingNew | internal/usecase/registry/service.go:341-366 | A failed publish leaves a new object exactly when an upload that reported an error landed undeleted or a cleanup delete failed. |
| PublishSaga.EveryRunKeepsConsistent | internal/usecase/registry/service.go:293-458 | Over all runs of publishes with failures anywhere, every stored artifact row names a stored object, as long as no landed commit is followed by a cleanup. |
| PublishRaces.AloneIsOneCall | internal/usecase/registry/service.go:337-458 | With nobody in between, the single steps of a publish have the effect of the one call. |
| PublishRaces.ApartExactly | internal/storage/key.go:14-22 | Two publishes write a common object exactly when they publish the same version with the same source or the same image. |
| PublishRaces.StepIsExact | internal/usecase/registry/service.go:293-458 | From a consistent state, whatever publishes are under way, a step keeps every stored row backed by its objects exactly when it is no delete of a stored row's object and no commit of a publish one of whose uploaded objects is gone. |
| PublishRaces.ConsistentExactlyWhenSafe | internal/usecase/registry/service.go:293-458 | Over every interleaving of any publishes, with failures, lost answers and crashes anywhere, every state is consistent exactly when no landed delete hits a stored row's object and every landed commit finds its two objects still there. |
| PublishRaces.EveryInterleavingKeepsConsistent | internal/usecase/registry/service.go:293-458 | In every interleaving of publishes that write no common object, every stored artifact row names a stored object with its checksum in every state, as long as no landed commit is reported as failed. |
| PublishRaces.SecondPublishUndoesFirst | internal/usecase/registry/service.go:293-458 | Two concurrent publishes of one content: the second is refused by the unique key, and its cleanup deletes both objects of the version that was published. |
| PublishRaces.DeleteBeforeCommit | internal/usecase/registry/service.go:346-350 | A second run: one publish deletes the common source while no stored row names it yet, and the commit that follows stores a version without its source. |
| OutboxLockstep.Database.RunBody | internal/repository/postgres/db.go:36-39 | A nested transaction joins the outer one: its statements run as part of it, up to the first failure. |
| OutboxLockstep.Database.WithinTransaction | internal/repository/postgres/db.go:36-55 | All statements of a transaction take effect or none does. |
| OutboxLockstep.SameKeyClashes | internal/integration/protoradarevents/module_version_published.go:86 | With colon-free module ids the dedup keys tell all business rows apart, across event kinds and for versions with any characters. |
| OutboxLockstep.LockstepMeansOneToOne | internal/usecase/registry/service.go:399-454 | In lockstep every business row has exactly one outbox record and every record has a row. |
| OutboxLockstep.OperationKeepsLockstep | internal/usecase/registry/service.go:112-131 | Each operation's transaction, when it takes effect, keeps rows and records in lockstep. |
| OutboxOperations.CreateModuleEffect | internal/usecase/registry/service.go:112-131 | Creating a module is refused when the id, the name or the record is taken; otherwise it adds the row and its record. |
| OutboxOperations.PublishEffect | internal/usecase/registry/service.go:399-454 | A publish without dependencies adds the version's row, its artifacts, configuration and metadata, and its record; it is refused when the version or the record is there. |
| OutboxOperations.PublishWithDependenciesEffect | internal/usecase/registry/service.go:399-454 | With dependencies it also replaces the version's dependency row and adds that record, before its own. |
| OutboxOperations.RebuildEffect | internal/usecase/dependencygraph/service.go:96-147 | A rebuild replaces the version's dependency row and adds its record, and is refused when the record is there. |
| OutboxOperations.CheckBreakingEffect | internal/usecase/registry/service.go:743-755 | A breaking check adds the report's row and its record. |
| OutboxOperations.CreateApprovalEffect | internal/usecase/governance/approval_service.go:455-476 | An approval request is refused when its id, report or record is taken; otherwise its row, requirements, audit event and record are added. |
| OutboxOperations.DecideApprovalEffect | internal/usecase/governance/approval_service.go:260-292 | A decision is refused when its id, requirement or record is taken; otherwise its row, both status updates, the audit events and its record are added. |
| OutboxLockstep.Perform | internal/usecase/governance/approval_service.go:455-476 | An operation takes effect as a whole exactly when no constraint refuses a statement, none fails and the commit takes place, and reports success exactly when the commit is reported too; otherwise nothing changes; lockstep holds afterwards. |
| OutboxLockstep.EveryRunKeepsLockstep | internal/usecase/registry/service.go:743-755 | Over all runs of create module, publish, rebuild, breaking check, approval create and decide, rows and outbox records agree. |
| OutboxLockstep.RebuildWorksOnce | internal/integration/protoradarevents/module_dependencies_updated.go:54 | Rebuilding a version's dependencies takes effect exactly when none were recorded for it: the record's key has no second form. |
| OutboxLockstep.RebuildAfterPublishFails | internal/usecase/dependencygraph/service.go:132-147 | After a publish that recorded dependencies, every rebuild of that version by hand fails, whatever operations came in between. |

## Left out

- HTTP transport, web UI, command line, DTO mapping, configuration, authentication, metrics and logging: straight-line copying or single lookups.
- Report and comment rendering, secret redaction, and message truncation by `errorMessageMaxLength`: text only. A run's comment text is a parameter, and a rewritten comment keeps its time stamps.
- `Stats` of the outbox: only reads, and counts statuses in a loop.
- `SKIP LOCKED`: the claim statement selects among the rows outside an arbitrary set of rows that other transactions have locked.
- `PublisherOptions.RetryBackoffIsCappedExponential`: uses integers, because rounding and overflow of the floating-point product are not modelled beyond the rule that a non-positive or too large product becomes the cap.
- `DescriptorStore.MetadataStore.Save`: is refused by unique constraints only, because other database failures roll back in the same way, which `OutboxLockstep` models.
- `DescriptorReader.GetByModuleVersion`: leaves the order of imports with equal paths open, because they have no unique key; database errors of the queries are left out.
- `DescriptorExtraction.ExtractMessages`: takes fields as given, because map-field detection and one-of names are plain lookups; source descriptors hold imports and services in final form.
- `DependencyIndex.BuildProviderIndex`: takes the provider rows as given; the queries that join them from other tables are not part of this model.
- `Policy.ProductionRuntimeModules`: lower-cases ASCII letters only.
- `ApprovalService.Service.RecordDecision`: reads its snapshot and commits as one step; `ApprovalRaces` takes the two apart, for one request and without its audit trail.
- `PublishSaga.Registry.PublishModuleVersion`: checks and commits without another publish in between; `PublishRaces` takes the steps apart.
- `ApprovalService.Service.CreateApprovalRequest`: has one outcome for all statements of its transaction, whose all-or-nothing behaviour `OutboxLockstep` models; reason texts, target ref and time stamps are not stored, and reading the winner's request back after losing a concurrent creation is left out.
- Comment and error lengths count characters; the program counts bytes.
- Random ids are fresh values given by the caller; hashing is any function to 64 hexadecimal digits; JSON payloads are left out.
- Archive extraction, the Buf workflow, and the database, object store and GitLab themselves: each call succeeds, fails, or lands and still reports an error.
- Owner add and remove, deprecation, GitLab project linking and runtime inventory, each with its own outbox event: the same transaction shape as the operations in `OutboxLockstep`.
