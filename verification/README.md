# Event registration: a model and its proofs

This project models the server of an event registration system and proves what its services keep. An event has
attributes, forms, blocks with limited places, tickets, email templates and participants; a participant holds at
most one value of each attribute. Files live in an object storage bucket.

| file | what it models |
|---|---|
| `Wrappers`, `Text`, `Values` | results and errors, the string operations, JSON values and the readers of an attribute's config |
| `Normalizer` | the normalisation of a value by type, and what stored values look like |
| `Storage` | object keys and their public URLs |
| `Store` | the participant store: what each call answers and what it leaves |
| `EventStore` | the same calls as the services run them: loops over entries, rows and objects, in a class |
| `Ownership`, `StoreRuns` | one owner for every object, along all runs; what one update changes |
| `Submissions`, `SubmissionExamples` | what an accepted form submission leaves, sending back what was read, and accepted submissions that leave less |
| `Capacity`, `BlockCapacity`, `CapacityExamples` | concurrent form submissions under row locks, the capacity of blocks, and what exceeds it |
| `BlockTree`, `BlockTreeBuilder` | the tree of an attribute's blocks, and the objects that are linked and sorted to build it |
| `CatalogTables`, `CatalogRuns`, `AttributeStore` | attributes, blocks and tickets: calls, runs, and the services as a class |
| `Sheets`, `Export`, `Import`, `RoundTrip`, `RoundTripExamples` | writing and reading participant sheets, importing them, export followed by import, and a store that is exported and imported |
| `AuthTokens` | concurrent logins, token refreshes, password resets and logouts |
| `TicketScan` | scanning tickets, confirming attendance, listing the confirmed |
| `EmailJobs`, `EmailTemplates`, `EscapeHtml` | the mail queue, template order and delivery counts, escaping for HTML |

## How it is built

Calls are functions on the tables they read and write. A call that raises an exception changes nothing, because
the services roll back. Classes hold the tables as fields; their methods follow the statements of the services, are
proved to do what the functions say, and keep valid (`Valid`) what every run of those functions keeps. Lemmas state
what holds of those functions: for every input, along every run of calls, and, for form submissions, tokens,
confirmations and mail jobs, in every interleaving of the steps that the transactions allow.

Ids are UUID columns, which the database compares by value. Where the code also compares or stores the text of a
request's id (blocks in a submitted value or a scan, a block and its new parent, upload tokens, attribute ids,
attributes shown on a ticket, the lists of participants and attributes of a bulk update or an export, the form's id),
the model keeps the text and looks rows up by the value it stands for, `Formats.uuidValue`; elsewhere an id is its
value.

Library code is a parameter. `Formats` holds the predicates for UUIDs, email addresses, colours and dates, lower
case, and the conversion between numbers and text; token and password hashes are functions; `JSON.stringify` and
the database's text search are functions. New ids, keys, tokens and times are arguments. What a theorem needs of
them is in its `requires`, such as that lower-casing twice is lower-casing once. That a number is read as it is shown
is asked of exported numbers alone (`RoundTrip.CellSafe`).

## What the code does not do

Some expectations fail on certain inputs. The lemma named with each says on which: exactly, unless it is called a run.

- A file field filled with white space is neither a token nor missing. The submission is accepted and stores the
  blank text, which names no object (`StoreRuns.SubmissionKeepsOwnershipExactly`; one such submission:
  `SubmissionExamples.BlankFileIsAccepted`).
- A registration that names a participant passes the check of required attributes on that participant's stored
  values, so the new participant may be incomplete; and an infinite number, which normalisation accepts, is stored as
  null (`Submissions.RegistrationIsCompleteExactly`, `Submissions.UpdateSubmissionIsCompleteExactly`; submissions:
  `SubmissionExamples.RegistrationNamingAnotherIsIncomplete`, `SubmissionExamples.UpdateWithInfinityIsIncomplete`).
- Blocks are looked up and locked by the value of their id, but their holders are counted by its text: a block id in
  upper case counts nobody and takes a place beyond the capacity. One submission at a time, a capacity is exceeded
  exactly when a full block is newly taken (`BlockCapacity.SubmissionKeepsCapacityExactly`); with ids spelled as
  stored only a registration can do it, by naming a participant who holds the full block
  (`BlockCapacity.RegistrationKeepsCapacityExactly`, `BlockCapacity.UpdateKeepsCapacity`). Two open submissions for one
  participant can do it together, because the blocks already held are read without a lock
  (a run: `CapacityExamples.OverlappingSubmissionsOverbook`).
- A stored file value that is itself a URL is accepted when sent back, but its object is deleted
  (`Submissions.WritingBackKeepsObjectExactly`).
- A block may be moved below itself; it then leaves the tree, in a cycle (`BlockTree.MovedBlockIsInTreeExactly`). That
  it may not be its own parent is checked on the texts of the two ids, so another spelling gets through
  (`CatalogRuns.OwnParentIsRefusedExactly`).
- An attribute update decides by the type it read, without a lock, what becomes of the blocks. If two updates read an
  attribute without blocks, one makes it a block attribute and the other sets another type, the blocks stay with an
  attribute of that other type (`CatalogRuns.CrossedUpdatesBreak`; exactly when:
  `CatalogRuns.LateUpdateKeepsExactly`).
- A ticket is validated before it is inserted, outside a transaction. If its attribute gets another type in between,
  the block ticket stays with an attribute that has no blocks (`CatalogRuns.TicketOfChangedAttributeBreaks`; exactly
  when: `CatalogRuns.LateTicketKeepsExactly`).
- Sibling blocks with equal order and creation time come out in whatever order the database returned them
  (`BlockTree.TreeIgnoresRowOrderExactly`).
- Items of a multi-select value are trimmed, the options they are compared with are not: an option with white space
  around it can never be chosen (`CatalogRuns.OptionsAreChosenExactly`, `CatalogRuns.UntrimmedOptionIsNeverChosen`).
- Text with white space around it, list items that contain a semicolon, and numbers that are not read as they are
  shown, do not come back from a sheet (`RoundTrip.ValueComesBackExactly`); headers repeat when a name imitates a
  suffixed header (`Sheets.HeadersAreDistinctExactly`).
- Of two attributes of one name only the first has a header without its id. An export of the later one alone drops the
  id too, and the import, which knows all attributes of the event, stores its values under the first
  (`Export.SecondOfNameIsMisread`; exactly when: `RoundTrip.KeyIsOwnExactly`, `RoundTrip.ExportThenImport`).
- A column headed "Email" beside "email", or "participantUUID", is accepted; every row with a value in it is then
  skipped, because the header is taken for an attribute's id (`Import.OddColumnIsRefused`).
- The public reader of a block tree drops its filter on the event when the slug is unknown
  (`AttributeStore.PublicRowsExactly`).
- When the mail queue refuses the jobs, their rows stay "pending" for good (`EmailJobs.RowsTellWhatHappened`).

## Model

| member | source | states |
|---|---|---|
| `Text.SplitUndoesJoin` | src/attributes/attribute-value-normalizer.ts:32-40 | splitting at the separator and trimming takes apart what joining with separator and space put together |
| `Normalizer.CountMeansAllDistinct` | src/attributes/attribute-value-normalizer.ts:186-197 | a count of matching ids equal to the list's length means exactly: every id is in scope and none repeats, by value |
| `Normalizer.NormalizedIsWellFormed` | src/attributes/attribute-value-normalizer.ts:311-368 | an accepted value is null or well formed for its type and config, and null exactly when the input was missing |
| `Normalizer.FixedPoints` | src/attributes/attribute-value-normalizer.ts:311-368 | null and the well-formed values are exactly the values normalisation returns unchanged |
| `Normalizer.NormalizeIsIdempotent` | src/attributes/attribute-value-normalizer.ts:311-368 | normalising an accepted value again returns it unchanged |
| `Storage.ExtractKey` | src/storage/storage.service.ts:35-42 | the loop removes all leading bucket URLs, and what is left has none |
| `Storage.KeyIsUnwrapped` | src/storage/storage.service.ts:35-42 | every value is its extracted key behind some number of bucket URLs |
| `Storage.KeyOfWrapped` | src/storage/storage.service.ts:31-42 | extracting undoes any number of URL prefixes of a bare key |
| `EventStore.EventStore.PrepareAttributesForSave` | src/participants/participants.service.ts:138-241 | fails if an attribute id is no UUID; else keeps the event's own attributes in order, resolves untrusted file values, normalises each, and fails with the first failure |
| `EventStore.EventStore.DeleteObjects` | src/participants/participants.service.ts:410-430 | exactly the objects named by the given values leave the bucket |
| `EventStore.EventStore.StaleFileValues` | src/participants/participants.service.ts:348-392 | collects exactly the stored file values that the update replaces by something else |
| `EventStore.EventStore.Register` | src/participants/participants.service.ts:254-308 | one new participant with the prepared values, or an error and nothing changed; outside forms the store stays valid |
| `EventStore.EventStore.Update` | src/participants/participants.service.ts:310-443 | rows, address and bucket after an update, or an error and nothing changed; outside forms the store stays valid |
| `EventStore.EventStore.BulkUpdateAttributes` | src/participants/participants.service.ts:701-792 | the same value for all listed participants, replaced objects deleted; every id must name a participant of the event, and no two texts the same one; the store stays valid |
| `EventStore.EventStore.RemoveMany` | src/participants/participants.service.ts:495-546 | the event's listed participants go with their values and objects |
| `EventStore.EventStore.Remove` | src/participants/participants.service.ts:445-493 | one participant goes with the values and objects, or "not found" |
| `EventStore.EventStore.UploadSingleFile` | src/forms/forms.service.ts:108-153 | size and type are checked before the object and its unclaimed row are added |
| `EventStore.EventStore.ReapExpiredFiles` | src/forms/forms-reaper.service.ts:22-72 | exactly the unclaimed uploads older than the limit go, rows and objects |
| `EventStore.EventStore.CanSignInToBlock` | src/blocks/blocks.service.ts:272-302 | true exactly for a block of that attribute and event, found by value, that is no root and is held under the text given fewer times than its capacity |
| `EventStore.EventStore.CheckBlocks` | src/forms/forms.service.ts:638-689 | accepts exactly when every block asked for is held already or can be signed in to |
| `EventStore.EventStore.CheckSubmitted` | src/forms/forms.service.ts:584-690 | the loop over the entries: tokens become claimed file keys, blocks are checked, the first failure wins |
| `EventStore.EventStore.FormSubmit` | src/forms/forms.service.ts:529-795 | an accepted submission leaves what the specification says, a refused one nothing; the store is valid afterwards if and only if no blank file value was accepted |
| `EventStore.EventStore.SaveSubmission` | src/forms/forms.service.ts:741-786 | an update of the named participant or, unless the limit had been reached at the start, a registration |
| `Ownership.ReplacedMeansChanged` | src/participants/participants.service.ts:348-410 | an object named by a row is deleted exactly when that row is set to something else |
| `Ownership.WriteKeepsOwnership` | src/participants/participants.service.ts:348-410 | writing rows and claiming uploads leaves every object exactly one owner |
| `StoreRuns.AcceptedSubmission` | src/forms/forms.service.ts:529-795 | what an accepted submission has checked, and the whole store it leaves |
| `StoreRuns.TokensDiffer` | src/forms/forms.service.ts:600-636 | no upload token is claimed by two entries of one submission |
| `StoreRuns.SubmissionKeepsOwnershipExactly` | src/forms/forms.service.ts:600-636 | after an accepted submission each object has one owner if and only if no file field was filled with white space |
| `StoreRuns.BlankFileBreaksOwnership` | src/forms/forms.service.ts:600-636 | every accepted submission with a blank file value leaves a value that names no object |
| `StoreRuns.UntrustedRegisterKeepsStore` | src/participants/participants.service.ts:104-136 | a registration outside forms takes no object over |
| `StoreRuns.UntrustedUpdateKeepsStore` | src/participants/participants.service.ts:104-136 | an update outside forms takes no object over |
| `StoreRuns.BulkUpdateKeepsStore` | src/participants/participants.service.ts:701-792 | a bulk update keeps each object owned once and each value in normal form |
| `StoreRuns.RemoveManyKeepsStore` | src/participants/participants.service.ts:495-546 | after a removal each object still has one owner |
| `StoreRuns.RemoveManyDeletesExactly` | src/participants/participants.service.ts:531-545 | exactly the objects that values of removed participants name are deleted |
| `StoreRuns.UploadKeepsStore` | src/forms/forms.service.ts:108-153 | an upload adds one object with one owner |
| `StoreRuns.ReapKeepsStore` | src/forms/forms-reaper.service.ts:22-72 | after reaping each object still has one owner |
| `StoreRuns.ReapDeletesExactly` | src/forms/forms-reaper.service.ts:22-72 | exactly the objects of expired unclaimed uploads are deleted |
| `StoreRuns.RunKeepsStore` | src/participants/participants.service.ts:254-546 | along every run of uploads, submissions, registrations, updates, bulk updates, removals and reaping, each object has one owner, each owner's object exists, and stored values stay in normal form |
| `StoreRuns.EveryObjectIsOwnedOnce` | src/participants/participants.service.ts:254-546 | the same from an event without participants and uploads |
| `StoreRuns.BulkUpdateChangesExactly` | src/participants/participants.service.ts:701-792 | the targeted rows hold the normalised value, all others are untouched, and exactly the objects these rows named and no longer name are deleted |
| `StoreRuns.UpdateSetsExactly` | src/participants/participants.service.ts:310-443 | each entry of the event's attributes is stored prepared, every other row is untouched |
| `StoreRuns.UpdateDeletesExactly` | src/participants/participants.service.ts:348-430 | exactly the objects that the participant's rows named and no longer name are deleted |
| `Submissions.UpdateSubmissionIsCompleteExactly` | src/forms/forms.service.ts:692-760 | after an update form every required attribute has a value, except blocks with nothing to select, if and only if none was submitted as an infinite number; what was not submitted keeps its value |
| `Submissions.RegistrationIsCompleteExactly` | src/forms/forms.service.ts:692-782 | a new participant is complete if and only if the registration itself left nothing required out, which holds whenever it names no participant, and submitted no infinite number for it |
| `Submissions.RegistrationRespectsLimit` | src/forms/forms.service.ts:765-772 | one at a time, registrations through a form never take an event beyond its limit |
| `SubmissionExamples.BlankFileIsAccepted` | src/forms/forms.service.ts:600-636 | a submission that fills a required file with white space is accepted and leaves a value without an object |
| `SubmissionExamples.RegistrationNamingAnotherIsIncomplete` | src/forms/forms.service.ts:692-740 | an accepted registration that names a participant and leaves out a required number |
| `SubmissionExamples.RegistrationWithInfinityIsIncomplete` | src/attributes/attribute-value-normalizer.ts:202-225 | an accepted registration whose required number is stored as null |
| `SubmissionExamples.UpdateWithInfinityIsIncomplete` | src/attributes/attribute-value-normalizer.ts:202-225 | an accepted update that replaces a required number by null |
| `Submissions.WritingBackChangesNothing` | src/participants/participants.service.ts:70-136 | sending back what any number of readings showed changes no value and deletes no object |
| `Submissions.WritingBackKeepsObjectExactly` | src/participants/participants.service.ts:104-136 | sending back a stored file value keeps its object if and only if the value is a bare key |
| `Capacity.EntryStepKeepsInv` | src/forms/forms.service.ts:584-598 | moving to the next entry keeps the reservations |
| `Capacity.BlockStepKeepsInv` | src/forms/forms.service.ts:667-674 | passing over a block that is held already keeps the reservations |
| `Capacity.LockKeepsInv` | src/blocks/blocks.service.ts:278-280 | a block row is locked by one submission at a time |
| `Capacity.CheckKeepsInv` | src/blocks/blocks.service.ts:282-302 | a check that counts a free place under a spelling of the block reserves it under the lock |
| `Capacity.NewlyHeldIsGranted` | src/attributes/attribute-value-normalizer.ts:136-200 | a saved value holds only blocks that were granted or are still held |
| `Capacity.HoldersAfterWrite` | src/blocks/blocks.service.ts:258-270 | writing one participant's values adds at most that participant to those whose value contains a block's text |
| `Capacity.SaveKeepsInv` | src/forms/forms.service.ts:741-782 | the inner commit turns reservations into holders |
| `Capacity.DeleteKeepsInv` | src/participants/participants.service.ts:495-546 | participants may be deleted at any time |
| `Capacity.StepKeepsInv` | src/forms/forms.service.ts:535-787 | every step of any submission keeps holders plus reservation within the capacity |
| `Capacity.SpellingNeverExceedsCapacity` | src/forms/forms.service.ts:638-689 | in every interleaving of submissions and deletions no spelling of a block's id is stored for more participants than the block's capacity |
| `BlockCapacity.CapacityNeverExceeded` | src/forms/forms.service.ts:638-689 | in every interleaving in which blocks are asked for as they are stored, no block is held by more participants than its capacity |
| `BlockCapacity.SubmissionKeepsCapacityExactly` | src/forms/forms.service.ts:638-782 | one submission at a time: an accepted one keeps every capacity if and only if each block it newly takes, under any spelling, has a place left |
| `BlockCapacity.RegistrationKeepsCapacityExactly` | src/forms/forms.service.ts:648-689 | with ids spelled as stored: an accepted registration keeps every capacity if and only if no block it asks for is full and held by the participant it names |
| `BlockCapacity.UpdateKeepsCapacity` | src/forms/forms.service.ts:648-689 | with ids spelled as stored: an accepted update keeps every capacity |
| `CapacityExamples.RespelledBlockOverbooks` | src/blocks/blocks.service.ts:258-301 | a run in which a registration that spells a full block's id otherwise exceeds the capacity |
| `CapacityExamples.RegistrationNamingAHolderOverbooks` | src/forms/forms.service.ts:648-674 | a run in which a registration that names a holder exceeds the capacity |
| `CapacityExamples.OverlappingSubmissionsOverbook` | src/forms/forms.service.ts:648-674 | a run in which two open submissions for one participant exceed it |
| `BlockTree.SortIsStable` | src/blocks/blocks.service.ts:164-171 | siblings come out by order, a missing one being 0, then by creation time, and ties keep their order |
| `BlockTree.DepthIsBounded` | src/blocks/blocks.service.ts:159-175 | a block that reaches the root does so in fewer steps than there are rows, whatever cycles there are elsewhere |
| `BlockTree.TreeIsExact` | src/blocks/blocks.service.ts:123-175 | the tree holds each block whose parents lead to the root once and no other, under its own parent, siblings in order |
| `BlockTree.TreeIgnoresRowOrderExactly` | src/blocks/blocks.service.ts:126-171 | the tree does not depend on the order of the rows if and only if no two siblings in it tie |
| `BlockTree.MovedBlockIsInTreeExactly` | src/blocks/blocks.service.ts:195-218 | a moved block is in the tree if and only if its new parent was and was not below it; it is on a cycle if and only if the parent was below it |
| `BlockTreeBuilder.Push` | src/blocks/blocks.service.ts:142-147 | pushes the object onto its parent's children if the parent is among the rows |
| `BlockTreeBuilder.Link` | src/blocks/blocks.service.ts:136-148 | every object has its children in row order, and the last root flag wins |
| `BlockTreeBuilder.SortChildren` | src/blocks/blocks.service.ts:164-171 | sorts the children of one object in place |
| `BlockTreeBuilder.SortBlockTree` | src/blocks/blocks.service.ts:159-175 | terminates and sorts the children of every block below the given one, and of no other |
| `BlockTreeBuilder.MakeNodes` | src/blocks/blocks.service.ts:318-336 | one object a row; with values to count in, every block but the root has its number of holders |
| `BlockTreeBuilder.BuildTree` | src/blocks/blocks.service.ts:136-156 | linking and sorting leave objects in the shape of the tree of the rows |
| `AttributeStore.AttributeStore.FindAll` | src/blocks/blocks.service.ts:123-157 | answers the tree of the attribute's blocks, whose objects carry their rows, nothing without a root, "not found" for another event's attribute |
| `AttributeStore.AttributeStore.GetBlockTree` | src/blocks/blocks.service.ts:304-360 | answers the tree, whose objects carry their rows and the number of holders, "not found" without a root |
| `AttributeStore.PublicRowsExactly` | src/blocks/blocks.service.ts:305-316 | the public reader shows an attribute's blocks if and only if the slug is that of its event or of no event |
| `AttributeStore.ReadersAgree` | src/blocks/blocks.service.ts:123-157 | both readers see the same rows and root, there is a root exactly for block attributes, and the trees are equal unless siblings tie |
| `CatalogRuns.ConfigIsStable` | src/attributes/attributes.service.ts:43-132 | a stored config is returned unchanged when it is sent again |
| `CatalogRuns.OptionsAreChosenExactly` | src/attributes/attribute-value-normalizer.ts:42-134 | every option of a stored select config can be chosen; one of a multi-select config from a list if and only if it is trimmed, from a text if and only if it also has no semicolon; a block attribute lets one block be picked |
| `CatalogRuns.UntrimmedOptionIsNeverChosen` | src/attributes/attribute-value-normalizer.ts:90-133 | no submitted value makes a multi-select attribute store an item with white space around it |
| `CatalogRuns.CascadeRemovesWhatIsUnder` | prisma/schema.prisma:174-176 | deleting blocks removes exactly them and everything below them |
| `CatalogRuns.DropBlocksKeeps` | src/blocks/blocks.service.ts:116-121 | dropping the blocks of an attribute removes all of them and no others |
| `CatalogRuns.NewRootKeeps` | src/blocks/blocks.service.ts:85-114 | an attribute that becomes a block attribute gets its one root |
| `CatalogRuns.UpdateTxKeeps` | src/attributes/attributes.service.ts:249-316 | an attribute update keeps roots, parents, configs and tickets sound |
| `CatalogRuns.LateUpdateKeepsExactly` | src/attributes/attributes.service.ts:255-314 | an update that read the attribute earlier keeps the tables sound if and only if the type it sends does not agree about blocks with the one read and differ from the one stored by now, the config fits the type, and no ticket loses its blocks |
| `CatalogRuns.CrossedUpdatesBreak` | src/attributes/attributes.service.ts:255-301 | whenever two updates read an attribute without blocks and the one that makes it a block attribute writes first, the other, sending a type without blocks, succeeds as it would alone and the tables are not sound |
| `CatalogRuns.CreateTxKeeps` | src/attributes/attributes.service.ts:134-163 | creating an attribute does |
| `CatalogRuns.ApplyItemsKeeps` | src/attributes/attributes.service.ts:345-366 | a bulk update does |
| `CatalogRuns.RemoveAttributeKeeps` | src/attributes/attributes.service.ts:318-343 | removing an attribute with its blocks and tickets does |
| `CatalogRuns.UpdateBlockKeeps` | src/blocks/blocks.service.ts:195-218 | moving a block does |
| `CatalogRuns.OwnParentIsRefusedExactly` | src/blocks/blocks.service.ts:207-212 | a move of a block onto itself is refused if and only if both ids are spelled alike, and otherwise makes a cycle |
| `CatalogRuns.DeleteBlockKeeps` | src/blocks/blocks.service.ts:244-256 | deleting a block with all below it does |
| `CatalogRuns.CreateTicketKeeps` | src/tickets/tickets.service.ts:108-152 | creating a ticket does |
| `CatalogRuns.LateTicketKeepsExactly` | src/tickets/tickets.service.ts:120-152 | inserting a ticket that was validated earlier keeps the tables sound if and only if its target is still a block attribute of the event and the shown attributes are still the event's |
| `CatalogRuns.TicketOfChangedAttributeBreaks` | src/tickets/tickets.service.ts:120-152 | whenever the attribute gets another type between validation and insertion, the ticket is inserted all the same and the tables are not sound |
| `CatalogRuns.CatalogStaysSound` | src/attributes/attributes.service.ts:134-366 | along every run from an event without attributes: one root for each block attribute, which alone has no parent, no blocks elsewhere, parents within the attribute, block tickets on block attributes of their event, unique tickets, stored configs |
| `AttributeStore.AttributeStore.NormalizeConfig` | src/attributes/attributes.service.ts:43-132 | fills the stored config field by field as specified |
| `AttributeStore.AttributeStore.EnsureRootBlock` | src/blocks/blocks.service.ts:85-114 | adds a root unless there is one |
| `AttributeStore.AttributeStore.CreateTx` | src/attributes/attributes.service.ts:134-163 | the attribute and, for a block attribute, its root |
| `AttributeStore.AttributeStore.UpdateTx` | src/attributes/attributes.service.ts:249-316 | type, name and config as specified; blocks appear, go or are renamed; a ticket prevents the change of type |
| `AttributeStore.AttributeStore.CreateAttribute` | src/attributes/attributes.service.ts:165-176 | in one transaction |
| `AttributeStore.AttributeStore.UpdateAttribute` | src/attributes/attributes.service.ts:232-247 | in one transaction |
| `AttributeStore.AttributeStore.RemoveAttribute` | src/attributes/attributes.service.ts:318-343 | the attribute goes with its blocks and tickets |
| `AttributeStore.AttributeStore.BulkUpdate` | src/attributes/attributes.service.ts:345-366 | all items in order, or the first failure and nothing changed |
| `AttributeStore.AttributeStore.CreateBlock` | src/blocks/blocks.service.ts:65-83 | a new block below a block of the same attribute |
| `AttributeStore.AttributeStore.UpdateBlock` | src/blocks/blocks.service.ts:195-218 | a block that is no root changes; its new parent is a block of the attribute, named by another text |
| `AttributeStore.AttributeStore.DuplicateBlock` | src/blocks/blocks.service.ts:220-242 | a copy under the same parent |
| `AttributeStore.AttributeStore.RemoveBlock` | src/blocks/blocks.service.ts:244-256 | a block that is no root goes with all below it |
| `AttributeStore.AttributeStore.CreateTicket` | src/tickets/tickets.service.ts:108-152 | target and shown attributes are validated, the unique indexes and the check constraint hold |
| `AttributeStore.AttributeStore.UpdateTicket` | src/tickets/tickets.service.ts:214-237 | the shown attributes are replaced |
| `AttributeStore.AttributeStore.RemoveTicket` | src/tickets/tickets.service.ts:239-242 | the ticket of the event goes |
| `Sheets.BuildAttributeHeaders` | src/import-export/utils/attribute-headers.ts:1-13 | the first column of a name keeps it, later ones get their id appended |
| `Sheets.HeadersAreDistinctExactly` | src/import-export/utils/attribute-headers.ts:1-13 | headers are distinct if and only if no name reads like the suffixed header of a later column |
| `Sheets.Build` | src/import-export/exporters/participants-xlsx.exporter.ts:19-48 | the sheet has the header row and one row for each participant, in order |
| `Sheets.ParseXlsxToDto` | src/import-export/import-export.service.ts:428-525 | columns are found by header, unknown and repeated ones refused, email demanded, rows read cell by cell |
| `Sheets.ReadSheetRows` | src/import-export/import-export.service.ts:485-522 | rows without a value are passed over, and more than 2000 refused |
| `Import.BuildBlockNameIndex` | src/import-export/import-export.service.ts:356-386 | the index maps a trimmed name to the attribute's blocks of that name, in order |
| `Import.NamesResolveExactly` | src/import-export/import-export.service.ts:388-426 | names resolve if and only if each is the name of exactly one block |
| `Import.FindDuplicates` | src/import-export/import-export.service.ts:185-195 | finds exactly the rows whose valid address an earlier row has |
| `Import.ImportService.ProcessImport` | src/import-export/import-export.service.ts:159-250 | the lists of imported and skipped rows, and the store, are those of importing row by row; the store stays valid |
| `Import.ImportService.ProcessRow` | src/import-export/import-export.service.ts:206-247 | one row is registered or skipped with its reason |
| `Import.RowsAreListedOnce` | src/import-export/import-export.service.ts:206-249 | each row is in exactly one of the two lists, in input order |
| `Import.RowsImportedExactly` | src/import-export/import-export.service.ts:183-249 | a row is imported if and only if it is the first with its valid address, that address was not stored, its columns name attributes by UUIDs and its values normalise; otherwise it is skipped for the reason the store before the import gives |
| `Import.OddColumnIsRefused` | src/import-export/import-export.service.ts:458-512 | a row with a value in a column keyed by a header that is no UUID is not imported |
| `Import.ImportStoresValues` | src/import-export/import-export.service.ts:231-240 | an imported row's normalised values are exactly what is stored for its participant |
| `Import.ImportLeavesOthers` | src/import-export/import-export.service.ts:206-247 | other participants' values, uploads and objects stay as they were |
| `RoundTrip.ValueComesBackExactly` | src/import-export/import-export.service.ts:320-354 | a stored value survives formatting, trimming and normalising if and only if its text is trimmed, its items are free of semicolons, and its number is read from what is shown for it |
| `RoundTrip.HeaderRowIsRead` | src/import-export/import-export.service.ts:443-478 | the exported header row is understood by a reader that knows all attributes of the event: every column finds an attribute of its name |
| `RoundTrip.RowIsRead` | src/import-export/import-export.service.ts:485-514 | an exported row is read as the address and one entry for each value |
| `RoundTrip.SheetIsRead` | src/import-export/import-export.service.ts:428-525 | an export of some attributes is read with all attributes of the event, as one row for each participant |
| `Export.ResolveAttributes` | src/import-export/import-export.service.ts:292-318 | the columns of the chosen attributes in the event's order; refused if and only if the ids, counted by text, do not name as many attributes of the event |
| `Export.ExportParticipants` | src/import-export/import-export.service.ts:69-136 | writes every selected participant with the stored values of the chosen attributes, unless the event, a chosen participant or a chosen attribute is unknown or named twice |
| `Export.ReadAs` | src/import-export/import-export.service.ts:151-152 | the header of an exported column is read as a column of the same name, and as another one if and only if it is misread |
| `Export.SecondOfNameIsMisread` | src/import-export/utils/attribute-headers.ts:1-13 | of two attributes of one name the second, exported alone, is taken for the first |
| `RoundTrip.StoredPersonOk` | src/import-export/import-export.service.ts:108-123 | a participant of a sound store survives the sheet if and only if the address is valid and the exported values are safe in a cell |
| `RoundTrip.KeyIsOwnExactly` | src/import-export/import-export.service.ts:443-478 | a column is taken for its own attribute if and only if it is not, being first of its name in the export, a later one in the event |
| `RoundTrip.PersonComesBackExactly` | src/import-export/import-export.service.ts:159-250 | an imported row restores a participant if and only if each value is in a column taken for its own attribute |
| `RoundTrip.ExportThenImport` | src/import-export/import-export.service.ts:69-250 | exporting any of the attributes from a store and importing with all of them registers a selected participant under the lower-case address with exactly the stored values, null and absent ones absent, if and only if none of them is in a misread column |
| `RoundTripExamples.RestoredWithBothColumns` | src/import-export/import-export.service.ts:69-250 | a store, a library and an empty target that meet all conditions: exported with both columns of one name the participant is restored, with the later one alone not |
| `AuthTokens.StepKeepsRefreshOnce` | src/auth/auth.service.ts:114-121 | the count of the conditional delete lets one exchange of a token through |
| `AuthTokens.StepKeepsResetOnce` | src/auth/auth.service.ts:161-179 | and one use of a reset token |
| `AuthTokens.StepSessions` | src/auth/auth.service.ts:64-122 | a step adds a session only with a login |
| `AuthTokens.TokensAreUsedOnce` | src/auth/auth.service.ts:64-190 | in every interleaving a refresh token is exchanged at most once, a reset token changes a password at most once, and an admin has no more refresh tokens than password logins |
| `AuthTokens.ResetEndsSessions` | src/auth/auth.service.ts:151-180 | a reset leaves the admin no refresh token; later ones are bounded by exchanges under way and new logins |
| `AuthTokens.RefreshAloneIsARun` | src/auth/auth.service.ts:96-122 | a refresh that nothing interrupts takes the steps of a concurrent one |
| `AuthTokens.LoginAloneIsARun` | src/auth/auth.service.ts:56-94 | so does a login |
| `AuthTokens.ResetAloneIsARun` | src/auth/auth.service.ts:151-180 | and a password reset |
| `AuthTokens.AuthService.Login` | src/auth/auth.service.ts:56-94 | the right password gives a new token, a wrong one nothing |
| `AuthTokens.AuthService.RefreshTokens` | src/auth/auth.service.ts:96-122 | a stored token in time is replaced by the new one, an expired one deleted, an unknown one refused |
| `AuthTokens.AuthService.ResetPassword` | src/auth/auth.service.ts:151-180 | a reset token in time changes the password, is used up, and ends the admin's sessions |
| `TicketScan.TicketScanService.Evaluate` | src/tickets/ticket-scan.service.ts:49-135 | the status of a token for a ticket and block |
| `TicketScan.TicketScanService.Confirm` | src/tickets/ticket-scan.service.ts:166-223 | a check-in for a valid ticket, the specified error otherwise |
| `TicketScan.ConfirmExactly` | src/tickets/ticket-scan.service.ts:166-223 | confirming succeeds if and only if the scan says valid, conflicts if and only if it says already confirmed, and then only that scope's scan changes |
| `TicketScan.RunConfirmedOnce` | src/tickets/ticket-scan.service.ts:195-222 | in every interleaving of scans and inserts there is one check-in, and one confirmed request, for a ticket, participant and block |
| `TicketScan.FindAll` | src/tickets/ticket-participants.service.ts:24-65 | the conditions pushed one after the other select the specified participants, each with the attendance |
| `TicketScan.ListingMatchesScan` | src/tickets/ticket-participants.service.ts:36-65 | a participant is listed as confirmed if and only if the scan says already confirmed, as unconfirmed if and only if it says valid |
| `TicketScan.ListingsPartition` | src/tickets/ticket-participants.service.ts:51-59 | for every search the two filtered listings split the unfiltered one |
| `TicketScan.HoldsMeansInArray` | src/tickets/ticket-attribute-format.ts:12-22 | the listing's condition on a value holds if and only if the scan finds the block in it |
| `EmailJobs.StepKeepsConsistent` | src/emails/email-delivery.service.ts:105-171 | each step keeps every row in agreement with its job |
| `EmailJobs.RowsTellWhatHappened` | src/emails/email-delivery.service.ts:59-171 | every row belongs to one job of at most three attempts, or stays pending because the queue refused its jobs; it says sent only after a mail call of the run returned for that job; of a finished job it says sent if and only if one did, and failed if and only if three attempts were started and none did |
| `EmailJobs.RunHistory` | src/emails/email-delivery.service.ts:105-171 | along every run a job is delivered if and only if one of its mail calls returned, and it counts the attempts started |
| `EmailJobs.SentStaysSent` | src/emails/email-delivery.service.ts:49-57 | a row that says sent never says anything else |
| `EmailJobs.AttemptIsARun` | src/emails/email-delivery.service.ts:105-171 | an attempt that nothing interrupts takes the steps of the queue |
| `EmailJobs.EmailDelivery.SendEmailToParticipants` | src/emails/email-delivery.service.ts:59-103 | one pending row and one job for each recipient; rows without jobs if the queue refuses them |
| `EmailJobs.EmailDelivery.Deliver` | src/emails/email-delivery.service.ts:105-171 | the status written and whether the attempt throws, for every outcome of the lookups and the mail call |
| `EmailTemplates.EmailTemplates.Reorder` | src/emails/email-templates.service.ts:347-365 | each listed template gets its index and the others stay; refused, with nothing changed, if and only if an id repeats or is not the event's |
| `EmailTemplates.ListedGetTheirIndex` | src/emails/email-templates.service.ts:358-363 | a later update of the loop does not overwrite an earlier one |
| `EmailTemplates.GetStatusCounts` | src/emails/email-templates.service.ts:154-198 | the accumulated counts are the numbers of rows of each status |
| `EscapeHtml.EscapeIsSubstitution` | src/emails/email-content-parser.service.ts:85-92 | the five replacements in a row are one character-by-character substitution |
| `EscapeHtml.EscapeIsInjective` | src/emails/email-content-parser.service.ts:85-92 | escaping can be undone |
| `EscapeHtml.NothingRawIsLeft` | src/emails/email-content-parser.service.ts:85-92 | no raw angle bracket or quote is left, and every ampersand begins an entity |

## Left out

- `BlockCapacity.CapacityNeverExceeded`: assumes that transactions do not time out and that upload tokens have been replaced by file keys; creating, importing and bulk-updating participants check no capacity and are not steps; events, forms, attributes and blocks stay fixed.
- `StoreRuns.RunKeepsStore`: each call is one step, because claiming an upload and reaping do not lock; deletions from the bucket succeed; forms, attributes and events stay fixed, so the cascades that remove a form's uploads or an attribute's values without deleting objects are not part of the runs.
- `EmailJobs.RowsTellWhatHappened`: status writes succeed and no worker dies between the mail call and the status write.
- `AuthTokens.TokensAreUsedOnce`: new tokens are never issued twice; admins are not deleted.
- `RoundTrip.ExportThenImport`: no block or file attribute is exported, since the import does not take back the ids and keys that the export writes; no name imitates a suffixed header; the spreadsheet library gives back the text of a cell.
- `TicketScan.FindAll`: answers the listed participants without their order, pages and formatted attributes.
- `TicketScan.TicketScanService.Evaluate`: the attributes shown with a scan are not formatted; the values of the ticket's attribute are UUIDs, as the normaliser leaves them.
- `CatalogRuns.CatalogStaysSound`: each call is one step, though attribute updates read without a lock, and block and ticket calls validate before they write, outside a transaction; what may come between is stated for attribute updates (`CatalogRuns.LateUpdateKeepsExactly`) and tickets (`CatalogRuns.LateTicketKeepsExactly`).
- `BlockTreeBuilder.MakeNodes`: the two readers' first loops are one method here, with the counting switched on by an argument.
- `Submissions.RegistrationRespectsLimit`: one submission at a time; the limit is judged when a submission begins, without a lock, so nothing is said about it under concurrency.
- Events emitted after a call, log entries and audit logs are not modelled.
- Controllers, guards, permissions and request validation appear only as the types of the arguments.
- Object storage, SMTP, the queue's timing, password and token hashing, signed access tokens and bot protection are parameters or left out.
- The replacement of tags in email contents, beyond the escaping of the inserted text, needs a regular expression engine.
- Creating, changing and listing events, admins, organizers, forms and email templates, and reports, keep nothing across calls that is not covered above.
- Opening and closing dates of a form can contradict each other after partial updates, so no invariant is stated about them.
- Rounding of numbers and the parsing of dates are not modelled.
