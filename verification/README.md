# Resumable acquisition and review protocols, modelled and proved in Dafny

The system acquires public records from official providers and keeps them in an ingestion store.
Every lane (one feeder and one scope) fetches provider pages or items, validates them fail-closed,
and commits observations together with a checkpoint in one transaction. A run may be stopped by an
exception or by the death of the process between any two commits, and a later run may resume. This
project models those protocols, the canonicalising reductions beside them, the two-phase reviewed
organization commits, and the operator's append-only receipt log, and proves what they keep.

How the pieces fit:

- `Store` is the ingestion store: observations unique per (lane, key, content), one checkpoint per
  lane, one receipt per run. `Repository` is the object; `Db` is its value. A commit is atomic.
- `Paging`, `PagingSafety` and `PagingListing` are the page loop shared by bill participation
  (`Bills`), the member roster (`Roster`) and the organization codes (`Mois`). A provider is an
  arbitrary function of the page number, chosen anew for every run; every fetch may raise or kill
  the process, and every commit may be rolled back or be the last thing the process does.
- `CursorLane`, `CursorSafety`, `CursorListing` and `CursorReach` are the universe-then-commit loop.
  A lane is a record of `Rules`; `Alio`, `RollCall`, `MeetingUniverse`, `MeetingGraph`,
  `Subcommittee` and `OpenDart` are its instances. A checkpoint is the replay of a history of
  accepted items, and every such history is reachable, so an invariant of all replays is an
  invariant of all reachable checkpoints and nothing more.
- `AlioImport` and `AlioOrganizations` consume the executive lane's checkpoint.
- `MeetingReductions`, `ReviewPackets`, `Fetching` and `Stager` hold reductions and pre-fetching.
- `Organizations`, `ReviewedManifest` and `ReviewedCommit` are the reviewed organization commits.
- `Receipts` and `ReviewSummary` are the receipt log and its summary.

Conventions. A content hash, a page fingerprint and a universe fingerprint stand for the canonical
value they digest, so digests are injective. Derived organization ids are injective in the provider
code. An observation's row index is its id. The class of characters to which Unicode gives a digit
value is a parameter, and statements hold for any such class. The row count of a page is the number of
its rows, as the connectors set it (packages/connectors/open_assembly_meetings.py:325-336). Timestamps, sources, snapshots and policies carry no
logic here. Provider outcomes, lock interleavings and the fate of each commit are inputs, and the
theorems quantify over all of them.

What the proofs found out about the code, each with its exact condition and a concrete case:

- The bill lane keeps an older checkpoint when a fresh run fails before its first commit. The
  resume that follows can report SUCCESS for a mixture of two listings
  (`Bills.StaleCheckpointSurvives`); it agrees with an uninterrupted run exactly when the checkpoint
  was the listing's own (`Bills.ResumeAgreesIff`).
- The roster lane does not pin the page size on resume; a resumed run that reaches the last page
  succeeds exactly when the checkpoint holds `cursor * page_size` keys (`Roster.ResumeSucceedsIff`),
  and an unchanged roster can fail that (`Roster.ChangedPageSizeFails`).
- A meeting interrupted after a page commit can leave a bill conflict in the checkpoint that the
  finally stored observation does not have (`MeetingGraph.StaleConflictIsReached`, exact condition in
  `MeetingGraph.ConflictEntryIsExactIff`).
- The import of the executive lane accepts a successful checkpoint and then refuses its rows exactly
  when an older version is stored under a manifest key (`AlioImport.ManifestResolvesIff`,
  `AlioImport.RevisedRowIsRefused`); two new institutions of one name pass the binding and are
  refused by the batch (`AlioOrganizations.SameNameGroupsAreRefused`).
- A reviewed commit that was prepared for creation fails exactly when one of its derived ids belongs
  to a superseded row (`ReviewedCommit.CommitSucceedsIff`, `ReviewedCommit.SupersededIdFails`).
- The receipt log does not look at how many bytes a write stored. A call can succeed while its receipt
  is lost: by a short write (`Receipts.ShortWriteLosesReceipt`), or by the next append when the
  newline was missing, which also loses the receipt before it (`Receipts.MissingNewlineSpoilsReceipts`).
  Exactly these successes are not in the log, at most two receipts in any execution, and the log then
  refuses every later call (`Receipts.LostReceipts`, `Receipts.LogGrows`).
- Provider keys of two corporations can collide exactly when one code, followed by a colon, begins the
  other (`OpenDart.KeysAreDistinct`, `OpenDart.OtherwiseKeysCollide`); codes without colons never do.

Two checks can never decide: the roster's check that every checkpointed observation is still stored
(`Roster.ResumeRefusedIff`), and the duplicate-page check of the page loop on nonempty pages
(`PagingSafety.FreshPageIsNoRepeat`).

## Model

| member | source | states |
|---|---|---|
| Store.Repository.StartSourceRun | packages/persistence/repository.py:529-565 | a new running receipt that records the checkpoint cursor it started from; nothing else changes |
| Store.Repository.FinishSourceRun | packages/persistence/repository.py:567-609 | only a running run is closed, and only with a terminal status; otherwise refused and the store is unchanged |
| Store.Repository.CommitSourcePage | packages/persistence/repository.py:2135-2320 | succeeds iff the policy, source and snapshot checks (a parameter) pass, the run is running and every observation is in its lane; then rows, checkpoint and receipt change as one step and each observation's row is returned; otherwise nothing changes |
| Store.Repository.MergePage | packages/persistence/repository.py:2135-2320 | new observations are appended once in page order, known ones are reused, and each observation is located |
| Store.CommitMeaning | packages/persistence/repository.py:2135-2320 | stored observations become old plus page, uniqueness is kept, only the run's lane and receipt change, and the receipt counts every observation as seen and as created or reused |
| Store.MergeKeepsUnique | migrations/versions/0003_batch_ingestion_foundation.py:77-83 | the unique constraint on (feeder, scope, key, hash) survives every commit |
| Store.MergeStores | packages/persistence/repository.py:2135-2320 | after a merge exactly the old rows and the page's observations are stored |
| Store.MergeIsIdempotent | packages/persistence/repository.py:2135-2320 | committing stored observations again stores nothing |
| Paging.RowsThroughIs | workers/legislative_activity.py:246-273 | rows due on pages 1..p add up to min(total, p * size) |
| Paging.PagesAddUp | workers/legislative_activity.py:246-273 | the announced pages announce exactly the total, and each page of a nonempty listing at least one row |
| Paging.PagesIff | workers/legislative_activity.py:246-264 | the page count is the only number of pages that holds the total while one less does not |
| Paging.PagedEnumerator.CheckHeader | workers/legislative_activity.py:219-264 | labels, page echo, total, page maximum and constancy of the total, exactly |
| Paging.PagedEnumerator.HashPage | workers/legislative_activity.py:275-317 | refuses exactly when a row is out of scope, incomplete, repeated in the page or already committed; else one hash per row |
| Paging.PageIsCommittedIff | workers/legislative_activity.py:218-360 | exactly which answer is committed as page p: labels, echo, size, total within bounds and unchanged, rows due, every row in scope, complete and under a new distinct key, and no repeat of an earlier page |
| Paging.PagedEnumerator.CommitPages | workers/legislative_activity.py:218-366 | the store, ending and commit count are those of the walk; a finished loop locates the stored row of every key seen |
| Paging.WalkStops | workers/legislative_activity.py:218-366 | a page that is not committed ends the run with the store as it was |
| Paging.WalkCommits | workers/legislative_activity.py:218-366 | a committed page is the run's last or is followed by the walk from the next page; coverage decides the ending |
| PagingSafety.FreshPageIsNoRepeat | workers/legislative_activity.py:302-317 | a nonempty page of new keys never matches an earlier page fingerprint |
| PagingSafety.CommitExtends | workers/legislative_activity.py:266-359 | an accepted page extends the committed pages by one disjoint page of the required size, all of it stored |
| PagingSafety.WalkIsSafe | workers/legislative_activity.py:218-366 | whatever the provider does, the checkpoint describes committed disjoint pages, and key counts follow page arithmetic |
| PagingSafety.RunIsSafe | workers/legislative_activity.py:156-382 | one run: sound checkpoint at its last committed page; the receipt says SUCCESS, PARTIAL, FAILED or RUNNING exactly by how the run ended and whether it committed, and accounts for every row; other runs and lanes are untouched |
| PagingSafety.RunKeepsCount | workers/mois_organization_codes.py:170-360 | where resume pins the page size the key count stays min(total, cursor * page size) and the final coverage check never fails |
| PagingSafety.HistoryIsSound | workers/legislative_activity.py:156-382 | over any history of any page lane, page sizes included, the checkpoint stays sound, rows are only appended and stay unique |
| PagingListing.WalkTracks | workers/legislative_activity.py:218-366 | against an unchanged listing the checkpoint stays the listing's own and exactly the pages through it are added |
| PagingListing.SteadyFinishes | workers/legislative_activity.py:218-366 | an uninterrupted walk over a well-formed listing finishes at its last page |
| PagingListing.RunKeepsFurthest | workers/legislative_activity.py:156-382 | stored rows are the pages through the furthest one ever committed; the checkpoint never stands after it |
| PagingListing.FurthestIsAnnounced | workers/legislative_activity.py:246-264 | no page past the announced last one is ever committed |
| PagingListing.ResumeFinishes | workers/legislative_activity.py:190-366 | from the listing's own checkpoint after page c an uninterrupted resume commits exactly the pages left and finishes |
| PagingListing.ChainEquivalence | workers/legislative_activity.py:156-382 | any page lane: an interrupted chain over an unchanged listing that reaches SUCCESS leaves the checkpoint and stored set of one uninterrupted run |
| PagingListing.ChainStoresListing | workers/legislative_activity.py:156-382 | any page lane: at SUCCESS the store and the checkpoint hold every record of the listing and no other new row |
| Bills.BillEnumerator.Run | workers/legislative_activity.py:156-382 | one invocation equals the specified run; a finished one reports as many unique records as the checkpoint's manifest |
| Bills.RunKeepsBillInv | workers/legislative_activity.py:218-366 | the key count is min(total, cursor * page size), so the final coverage check can never fail |
| Bills.ChainKeepsBillInv | workers/legislative_activity.py:156-382 | that invariant after any sequence of fresh and resumed runs with any providers and page sizes |
| Bills.SuccessIsSafe | workers/legislative_activity.py:156-382 | SUCCESS means pages 1..N under one total with that many distinct keys; PARTIAL and FAILED tell whether a page was committed |
| Bills.CrashResumeEquivalence | workers/legislative_activity.py:156-382 | any interrupted chain that reaches SUCCESS leaves the cursor, seen map, fingerprints and stored set of one uninterrupted run |
| Bills.SuccessStoresListing | workers/legislative_activity.py:156-382 | SUCCESS leaves every record of the listing, and no other new row, in the store and in the checkpoint |
| Bills.ResumeRefusedIff | workers/legislative_activity.py:190-216 | on a sound store a resume raises without a fetch iff page size or contract differ or no page is left |
| Bills.ResumeGoesOn | workers/legislative_activity.py:190-366 | a resume with pages left, whatever their number, commits exactly those and finishes |
| Bills.ResumeWithoutCheckpoint | workers/legislative_activity.py:190-216 | without a checkpoint a resume is a fresh run |
| Bills.NewListingFinishes | workers/legislative_activity.py:156-382 | the well-formedness asked of a listing is met by a concrete two-page one, whose uninterrupted run reports SUCCESS with both rows seen |
| Bills.ResumeAgreesIff | workers/legislative_activity.py:190-216 | a resume that finishes agrees with the listing iff its checkpoint was the listing's own |
| Bills.StaleCheckpointSurvives | workers/legislative_activity.py:190-216 | from an empty store: a cut-off run over an older listing, a fresh run that fails at once, and a resume that reports SUCCESS for a mixture of two listings |
| Roster.RosterEnumerator.CheckpointObservationIds | workers/assembly_roster.py:172-196 | the stored row of every manifest entry, or nothing iff one is missing |
| Roster.RosterEnumerator.Run | workers/assembly_roster.py:198-388 | one invocation equals the specified run; a finished one returns the rows of the roster in member-code order |
| Roster.RosterIdsAreDistinct | workers/assembly_roster.py:390-400 | the returned rows are distinct and as many as the provider keys, so the materialization checks pass |
| Roster.ResumeRefusedIff | workers/assembly_roster.py:218-236 | on a sound store a resume raises without a fetch iff the checkpoint covers its last page |
| Roster.ResumeGoesOn | workers/assembly_roster.py:218-388 | with an unchanged roster and page size a resume with pages left commits exactly those and finishes |
| Roster.ChainIsSound | workers/assembly_roster.py:198-388 | over any history and any page sizes the checkpoint is sound and rows unique |
| Roster.CrashResumeEquivalence | workers/assembly_roster.py:198-388 | with one page size and an unchanged roster, an interrupted chain that reaches SUCCESS leaves the checkpoint and stored set of one uninterrupted run |
| Roster.RosterRunIsSafe | workers/assembly_roster.py:198-388 | SUCCESS leaves a complete checkpoint; PARTIAL and FAILED tell whether a page was committed |
| Roster.ResumeSucceedsIff | workers/assembly_roster.py:218-388 | a resumed run that commits the last page succeeds iff the checkpoint held cursor * page size keys |
| Roster.ChangedPageSizeFails | workers/assembly_roster.py:218-388 | a concrete unchanged roster of five: cut off after page 1 at size 3 and resumed at size 4, the run commits the last page, has skipped a member and raises |
| Mois.OrganizationEnumerator.StoredManifest | workers/mois_organization_codes.py:210-231 | the single-version map all stored rows of the lane form, or nothing iff a key is stored twice |
| Mois.OrganizationEnumerator.Run | workers/mois_organization_codes.py:135-391 | one invocation, early refusals included, equals the specified run |
| Mois.ResumeIsExact | workers/mois_organization_codes.py:170-233 | after any history, a resume that is not refused starts from a map that is both the union of pages 1..cursor and all that is stored |
| Mois.ResumeRefusedIff | workers/mois_organization_codes.py:170-233 | on a sound store a resume is refused iff size or contract differ, no page is left, or a stored row is not the checkpoint's version |
| Mois.OrganizationEnumerator.CheckResume | workers/mois_organization_codes.py:170-233 | the check of the checkpoint against the stored rows: refused iff it is not resumable; else the progress it holds |
| Mois.MoisRunIsSafe | workers/mois_organization_codes.py:135-391 | SUCCESS is complete; PARTIAL when a page was committed or a checkpoint existed, FAILED otherwise; early refusals open no run |
| Mois.MoisRunIsCounted | workers/mois_organization_codes.py:170-360 | one run keeps the key count at min(total, cursor * page size); its final coverage check can never fail |
| Mois.ChainIsSound | workers/mois_organization_codes.py:135-391 | soundness and uniqueness over any history |
| Mois.ChainIsCounted | workers/mois_organization_codes.py:135-391 | that count after any history of runs of any page sizes |
| Mois.CrashResumeEquivalence | workers/mois_organization_codes.py:135-391 | against an unchanged listing an interrupted chain that reaches SUCCESS leaves the checkpoint and stored set of one uninterrupted run |
| Mois.ResumeRefusedWhileBehind | workers/mois_organization_codes.py:140-231 | against an unchanged listing a resume is refused, before or after its run is opened, iff a run of the lane has succeeded, the checkpoint stands before the furthest page ever committed, or it covers the last page |
| Mois.RefusedResumeChangesNothing | workers/mois_organization_codes.py:140-231 | a refused resume raises without a commit, whatever the provider would have answered |
| Mois.ResumeGoesOn | workers/mois_organization_codes.py:170-391 | a resume that is not refused commits exactly the pages left and finishes |
| Mois.SuccessIsRemembered | workers/mois_organization_codes.py:143-151 | a run of the lane has succeeded iff one of the attempts so far ended by finishing |
| CursorLane.CursorEnumerator.Run | workers/public_institutions.py:274-596 | one invocation of a universe-then-commit lane equals the specified run |
| CursorLane.CursorEnumerator.CommitItems | workers/assembly_meeting_graph_enumeration.py:365-408 | the item loop with its budget, leading commits and cursor steps equals the specified loop |
| CursorSafety.StepCommits | workers/assembly_meeting_graph_enumeration.py:375-408 | an item's commits all happen or stop with the cursor where it was; observations are stored iff the cursor advanced |
| CursorSafety.DriveMeans | workers/assembly_roll_call_votes.py:426-476 | the loop at one position: end of universe or budget, a fetch that dies or raises, an unaccepted item, or a commit and one less budget |
| CursorSafety.DriveDescribes | workers/assembly_meeting_graph_enumeration.py:365-408 | the loop leaves a replayable checkpoint and completes only at the end of the universe |
| CursorSafety.RunIsSafe | workers/assembly_roll_call_votes.py:375-494 | one invocation keeps the checkpoint replayable; SUCCESS means this run's whole universe was committed; its receipt reads off its ending and commits and accounts for every row |
| CursorSafety.StatusTells | workers/assembly_roll_call_votes.py:478-494 | FAILED iff it raised and left rows and checkpoints as they were; PARTIAL iff it stopped at its budget or raised after the checkpoint named it; SUCCESS iff complete; RUNNING iff the process died |
| CursorSafety.WithoutCheckpoint | workers/assembly_roll_call_votes.py:375-410 | a resume without a checkpoint is a fresh run, commits nothing, or opens no run, by the lane's rule |
| CursorSafety.ResumeRefusedIff | workers/assembly_roll_call_votes.py:340-375 | a resume raises without a fetch or commit iff the universe moved, the checkpoint stands at its end, or the lane's check of it fails |
| CursorSafety.ChainIsDescribed | workers/assembly_roll_call_votes.py:340-494 | after any runs with moving universes, failures and budgets the checkpoint is the replay of accepted items, all stored |
| CursorReach.ReplayIsReached | workers/assembly_meeting_graph_enumeration.py:334-436 | conversely every accepted history is what some sequence of runs leaves, one run per event, with everything it observed stored |
| CursorListing.HistoryIsOnCourse | workers/assembly_meeting_graph_enumeration.py:365-408 | interruptions and repeats never leave the course of an unchanged provider |
| CursorListing.CrashResumeEquivalence | workers/assembly_roll_call_votes.py:340-494 | a chain of interruptions, budgets and resumes that reaches the end leaves the state and stored set of one uninterrupted run, which completes iff the final coverage check holds there |
| CursorListing.EndIsPassed | workers/assembly_roll_call_votes.py:340-494 | a chain that stands at the end has had the universe and every item accepted |
| CursorListing.BudgetedCursor | workers/assembly_roll_call_votes.py:426-476 | after r failure-free runs of budget b the cursor is min(n, r * b) |
| CursorListing.BudgetedRuns | workers/assembly_meeting_graph_enumeration.py:365-425 | n items finish in exactly ceil(n / b) runs, all earlier ones PARTIAL |
| Alio.ParseDirectory | packages/connectors/alio_disclosures.py:984-1012 | reads the rows iff the announced total is their number and codes are distinct and non-blank; an empty directory is read and refused only by the lane |
| Alio.HashReport | workers/public_institutions.py:497-511 | refuses iff a row key repeats in the report or in the manifest; else the hash of every row |
| Alio.ReportIsAcceptedIff | workers/public_institutions.py:345-511 | a report is accepted iff its disclosure is new and its row keys are distinct and new; an institution without one always is |
| Alio.PartitionAtEveryCursor | workers/public_institutions.py:303-583 | at every cursor the disclosure map is injective and with the no-current set partitions the codes before it; the coverage check then holds |
| Alio.CoverageNeverFails | workers/public_institutions.py:575-583 | a run that reaches the last institution completes |
| Alio.ManifestAtEveryCursor | workers/public_institutions.py:350-573 | the manifest is exactly the executive rows observed, each under its institution's disclosure; correction-only rows never enter it |
| Alio.ReportsAreObserved | workers/public_institutions.py:422-573 | report by report: every filed row is observed and in the manifest with its institution, disclosure, person and details, an empty report as a correction, and nothing else is |
| Alio.StoredReportsAreExact | workers/public_institutions.py:350-573 | after any runs the stored checkpoint is that of accepted reports, one per institution before the cursor, all of whose rows are stored |
| AlioImport.ProducerMeetsConsumer | workers/alio_current_executive_claim_import.py:57-106 | the consumer accepts a producer's store iff the run that wrote the checkpoint ended in SUCCESS |
| AlioImport.AcceptedIff | workers/alio_current_executive_claim_import.py:57-106 | what the consumer demands of any store: a successful run of the lane at the end of a directory of distinct codes, each with exactly one current disclosure or listed as without |
| AlioImport.OneRowIsImported | workers/alio_current_executive_claim_import.py:57-106 | an accepted run exists: one institution reporting one executive row is imported, and that row is the manifest and is stored |
| AlioImport.ManifestRowsPass | workers/alio_current_executive_claim_import.py:207-244 | no check of a manifest row against the checkpoint can fail: known institution code, current disclosure of that institution, published row, one name and classification per institution |
| AlioImport.Pick | workers/alio_current_executive_claim_import.py:119-134 | one stored row with the manifest's content and no other version, exactly |
| AlioImport.CurrentObservations | workers/alio_current_executive_claim_import.py:109-134 | succeeds iff every manifest key resolves; returns one row per key in key order |
| AlioImport.ManifestResolvesIff | workers/alio_current_executive_claim_import.py:109-134 | on a producer's store the manifest resolves iff no other version is stored under a manifest key |
| AlioImport.RevisedRowIsRefused | workers/alio_current_executive_claim_import.py:109-134 | two fresh runs between which one row was revised: the checkpoint is accepted and the row does not resolve |
| AlioImport.ImportIgnoresInterruptions | workers/alio_current_executive_claim_import.py:57-106 | the manifest read after any accepted interrupted chain is the uninterrupted run's |
| AlioImport.ResumeWithoutCheckpoint | workers/public_institutions.py:280-284 | without a checkpoint a resume opens no run |
| AlioImport.UninterruptedCommits | workers/public_institutions.py:325-573 | an uninterrupted run makes one commit for the directory and one for each institution |
| AlioOrganizations.BindingIsSafe | workers/alio_current_executive_claim_import.py:160-194 | a group binds to a current organization of its name or to a new one whose id and name are free |
| AlioOrganizations.BindingIff | workers/alio_current_executive_claim_import.py:160-194 | exactly when a group is bound and to what: one bound organization of its name, or the code's id and the name belong to one current organization or to none |
| AlioOrganizations.BoundGroupsImportIff | packages/persistence/repository.py:3176-3275 | bound groups are imported iff they share no organization, new names differ and no new id is superseded |
| AlioOrganizations.SameNameGroupsAreRefused | packages/persistence/repository.py:3219-3231 | two new institutions of one name pass the binding and are refused by the batch |
| RollCall.BuildUniverse | workers/assembly_roll_call_votes.py:245-271 | refuses iff a tally is invalid or a bill repeats; else the summaries in bill-id order |
| RollCall.UniverseIsCanonical | workers/assembly_roll_call_votes.py:245-271 | the universe and its refusal do not depend on row order |
| RollCall.ReconcileTallies | workers/assembly_roll_call_votes.py:116-150 | one counting pass computes the reconciliation |
| RollCall.CountsAddUp | workers/assembly_roll_call_votes.py:121-128 | the four counts add up to the member rows |
| RollCall.ReconciliationMeans | workers/assembly_roll_call_votes.py:116-150 | the three statuses exactly, from the numbers of rows of each value, and what a bill that is not matched keeps |
| RollCall.MatchedMeans | workers/assembly_roll_call_votes.py:116-150 | on a validated bill MATCHED iff all three tallies agree and not-participating is member total minus vote total |
| RollCall.BallotIsAcceptedIff | workers/assembly_roll_call_votes.py:273-318 | a ballot is accepted iff it fits one page, carries its announced rows, and all are of the bill and age, one per member |
| RollCall.BallotsAreObserved | workers/assembly_roll_call_votes.py:426-466 | every vote of every accepted ballot is observed under bill and member with its bill's reconciliation, and nothing else is |
| RollCall.ExceptionsAtEveryCursor | workers/assembly_roll_call_votes.py:426-466 | at every replayed cursor the exceptions are exactly the non-matched bills before it |
| RollCall.StoredExceptionsAreExact | workers/assembly_roll_call_votes.py:375-494 | after any sequence of runs the stored exceptions are exact and all votes of the accepted ballots are stored |
| RollCall.CrashResume | workers/assembly_roll_call_votes.py:375-494 | an interrupted, budgeted chain that reaches the last bill leaves the exceptions and stored votes of one uninterrupted run |
| RollCall.ResumeWithoutCheckpoint | workers/assembly_roll_call_votes.py:400-410 | without a checkpoint a resume is a fresh run |
| RollCall.UninterruptedCommits | workers/assembly_roll_call_votes.py:410-466 | an uninterrupted run makes one commit for each summary page and one for each bill |
| Fetching.FetchList | workers/assembly_meeting_universe.py:170-201 | succeeds iff every page answers consistently under the first total, and then holds exactly the announced rows |
| MeetingUniverse.AggregateMeetings | workers/assembly_meeting_universe.py:88-109 | raises iff a meeting id has two signatures or a minutes number two meeting ids; else sorted distinct meetings with their row counts |
| MeetingUniverse.ConsistentIff | workers/assembly_meeting_universe.py:88-109 | rows are consistent iff meeting ids determine rows and minutes numbers determine meeting ids, both as functions |
| MeetingUniverse.AggregateIsCanonical | workers/assembly_meeting_universe.py:88-109 | raising and result are independent of row order |
| MeetingUniverse.CountsAddUp | workers/assembly_meeting_universe.py:88-109 | agenda-row counts add up to the rows |
| MeetingUniverse.EmitPage | workers/assembly_meeting_universe.py:263-285 | one pass over a page emits the new meetings once and records their ids |
| MeetingUniverse.ObservedOnFirstPage | workers/assembly_meeting_universe.py:256-302 | each meeting is observed once, on its first row's page, with the row count of its meeting; "not every meeting was observed" is unreachable |
| MeetingUniverse.EmitKeepsOrder | workers/assembly_meeting_universe.py:256-302 | a page observes its new meetings in the order of their first rows |
| MeetingUniverse.UninterruptedCommits | workers/assembly_meeting_universe.py:256-302 | an uninterrupted run makes one commit for each page and none for the universe |
| MeetingUniverse.ObservedAreAggregated | workers/assembly_meeting_universe.py:250-302 | at every cursor the observations are exactly the aggregated meetings listed so far, and at completion all of them |
| MeetingUniverse.StoredMeetingsAreAggregated | workers/assembly_meeting_universe.py:228-302 | after any runs the stored universe is consistent and its aggregated meetings before the cursor are stored, all of them under a SUCCESS receipt |
| MeetingReductions.MergeDetailRows | workers/assembly_meeting_graph_enumeration.py:80-104 | merges iff rows agree beyond the flags; keeps every row's flags |
| MeetingReductions.MergeMeans | workers/assembly_meeting_graph_enumeration.py:80-104 | rows merge iff they are equal but for the flags; a merged flag is Y iff some row says Y and unpublished iff every row is |
| MeetingReductions.MergeShuffles | workers/assembly_meeting_graph_enumeration.py:80-104 | merging is independent of row order |
| MeetingReductions.MergeGroups | workers/assembly_meeting_graph_enumeration.py:80-104 | merging groups and then their results is merging all rows |
| MeetingReductions.ReconcileMeetingBills | workers/assembly_meeting_graph_enumeration.py:107-137 | one entry per distinct row with its multiplicity, by bill id, then name, then first occurrence; ids split into exact and conflicting, ascending |
| MeetingReductions.ReconciliationConserves | workers/assembly_meeting_graph_enumeration.py:107-137 | counts add up to the rows; exact and conflicting ids partition; exact iff all rows agree |
| MeetingReductions.ReconciliationIsCanonical | workers/assembly_meeting_graph_enumeration.py:107-137 | independent of row order, entries as a multiset |
| MeetingGraph.FetchMeeting | workers/assembly_meeting_graph_enumeration.py:257-296 | succeeds iff detail rows merge, match the universe and share the context; the whole graph is pinned and all pages but the last detail page lead |
| MeetingGraph.MeetingIsAcceptedIff | workers/assembly_meeting_graph_enumeration.py:257-281 | a meeting is accepted iff its detail rows are of the listed meeting and date and equal but for the flags, and every agenda and bill row has their context |
| MeetingGraph.CursorCountsStoredMeetings | workers/assembly_meeting_graph_enumeration.py:365-408 | the meetings before the cursor are exactly the observed ones, in order, stored, each with a graph that fetching it returned |
| MeetingGraph.ConflictsAtEveryCursor | workers/assembly_meeting_graph_enumeration.py:371-408 | the conflict map, meeting by meeting: finished, in progress and later |
| MeetingGraph.ConflictEntryIsExactIff | workers/assembly_meeting_graph_enumeration.py:371-375 | a finished meeting's entry agrees with its observation iff that has conflicts or no interrupted attempt had |
| MeetingGraph.StaleConflictIsReached | workers/assembly_meeting_graph_enumeration.py:371-408 | two fetchable attempts, one interrupted, leave a conflict in the checkpoint while the stored observation has none |
| MeetingGraph.GraphIsRepeatable | workers/assembly_meeting_graph_enumeration.py:365-408 | an interrupted meeting can be taken again with the same result |
| MeetingGraph.CrashResume | workers/assembly_meeting_graph_enumeration.py:334-436 | against unchanged meetings, a chain interrupted between the commits of a meeting that reaches the end leaves the conflicts and stored graphs of one uninterrupted run |
| MeetingGraph.ResumeWithoutCheckpoint | workers/assembly_meeting_graph_enumeration.py:356-364 | without a checkpoint a resume commits nothing |
| MeetingGraph.UninterruptedCommits | workers/assembly_meeting_graph_enumeration.py:365-408 | an uninterrupted run makes one commit for each page of each meeting |
| MeetingGraph.MeetingsFinishInTime | workers/assembly_meeting_graph_enumeration.py:365-425 | n meetings finish in exactly ceil(n / m) failure-free runs of budget m |
| ReviewPackets.BuildReviewPacket | workers/assembly_subcommittee_review_enumeration.py:84-130 | fails iff no row or no page, or several bill numbers or ages; else distinct rows in order with multiplicities, sorted pages, anchor the last page |
| ReviewPackets.PacketIsCanonical | workers/assembly_subcommittee_review_enumeration.py:84-130 | permuting rows and source pages changes neither packet nor refusal |
| ReviewPackets.BuildUniverse | workers/assembly_subcommittee_review_enumeration.py:205-240 | fails iff a row's age differs or a bill has two numbers; else one packet per bill in bill-id order |
| ReviewPackets.UniverseConserves | workers/assembly_subcommittee_review_enumeration.py:220-240 | row totals, and distinct rows plus surplus, add up to the provider's rows |
| Subcommittee.FetchUniverse | workers/assembly_subcommittee_review_enumeration.py:165-278 | exactly when fetching fails, and that the universe is accepted, covers and conserves the announced rows |
| Subcommittee.EmissionAtEveryCursor | workers/assembly_subcommittee_review_enumeration.py:383-447 | after pages 1..p exactly the packets whose every source page is at most p were emitted, once each; the counter is the packet count exactly at completion |
| Subcommittee.EmissionIsOrdered | workers/assembly_subcommittee_review_enumeration.py:402-447 | packets are emitted page by page, on one page in bill-id order of the universe |
| Subcommittee.StoredEmissionIsExact | workers/assembly_subcommittee_review_enumeration.py:351-447 | the emission is exact at the stored cursor after any sequence of runs, and every emitted packet is stored |
| Subcommittee.CrashResume | workers/assembly_subcommittee_review_enumeration.py:351-447 | a chain that reaches the last page leaves the counter and stored packets of one uninterrupted run |
| Subcommittee.ResumeWithoutCheckpoint | workers/assembly_subcommittee_review_enumeration.py:383-395 | without a checkpoint a resume commits nothing |
| Subcommittee.UninterruptedCommits | workers/assembly_subcommittee_review_enumeration.py:402-447 | an uninterrupted run makes one commit for each page and none for the universe |
| OpenDart.RowsWithKeys | workers/corporate_talent.py:291-301 | numbers the rows with one counter per receipt |
| OpenDart.OrdinalsAreRanks | workers/corporate_talent.py:291-301 | a row's ordinal is its occurrence rank within its receipt |
| OpenDart.OrdinalsAreContiguous | workers/corporate_talent.py:291-301 | every ordinal from 1 to the receipt's count is used |
| OpenDart.KeyIsInjective | workers/corporate_talent.py:299-299 | with colon-free codes the provider key determines corporation, receipt and ordinal, whatever the receipts contain |
| OpenDart.KeyTellsRow | workers/corporate_talent.py:299-299 | under one code the provider key determines receipt and ordinal, colons or not |
| OpenDart.OtherwiseKeysCollide | workers/corporate_talent.py:299-299 | two codes of which one begins the other at a colon have rows with one key |
| OpenDart.PageKeysAreDistinct | workers/corporate_talent.py:467-475 | a report is accepted iff every row is the corporation's own: the duplicate-row-key check never fires |
| OpenDart.CoverageAtEveryCursor | workers/corporate_talent.py:427-543 | with plus without equals the cursor at every commit; neither counter check can fail |
| OpenDart.ReportIsAcceptedIff | workers/corporate_talent.py:455-475 | a report is accepted iff all its rows are the corporation's own; it may be empty |
| OpenDart.RowsAreObserved | workers/corporate_talent.py:455-535 | every row of every accepted report is observed under its numbered key, nothing else is, and the counters are the numbers of reports with rows and of rows |
| OpenDart.KeysAreDistinct | workers/corporate_talent.py:427-543 | provider keys are pairwise distinct over the whole universe when no code begins another at a colon, whatever the receipts |
| OpenDart.StoredCoverageIsExact | workers/corporate_talent.py:360-543 | after any sequence of runs the stored counters split the stored cursor and count the rows, all stored, with distinct keys when no code begins another at a colon |
| OpenDart.CrashResume | workers/corporate_talent.py:360-543 | a chain that reaches the last corporation leaves the counters and stored rows of one uninterrupted run |
| OpenDart.ResumeWithoutCheckpoint | workers/corporate_talent.py:366-370 | without a checkpoint a resume opens no run |
| OpenDart.UninterruptedCommits | workers/corporate_talent.py:427-543 | an uninterrupted run makes one commit for the universe and one for each corporation |
| Organizations.ImportBatch | packages/persistence/repository.py:3176-3275 | accepts iff ids are distinct, known ids are the current rows, new names distinct and free; appends exactly the missing ones |
| Organizations.BatchIsAcceptedIff | packages/persistence/repository.py:3176-3275 | over the table's rows: ids differ, each known id is the current row of that organization, each new name is free in the table and in the batch |
| Organizations.ImportKeepsTable | packages/persistence/repository.py:3176-3275 | ids and current names stay unique, rows are kept, the batch is current |
| Organizations.ImportIsIdempotent | packages/persistence/repository.py:3176-3275 | importing the batch again creates nothing |
| ReviewedManifest.Parse | workers/orggo_reviewed_organization_manifest.py:84-141 | accepts iff fields are well-formed (chart ids in any class of digit characters) and codes and names distinct; items in code order |
| Text.StripMeans | workers/orggo_reviewed_organization_manifest.py:71-75 | stripping takes off white space at both ends and nothing else |
| ReviewedManifest.ParsableIff | workers/orggo_reviewed_organization_manifest.py:72-141 | exactly which manifests parse, field by field, and what their items then are |
| ReviewedManifest.ParseIgnoresOrder | workers/orggo_reviewed_organization_manifest.py:84-141 | parsing is invariant under item order |
| ReviewedManifest.ParseRoundTrips | workers/orggo_reviewed_organization_manifest.py:47-141 | the canonical payload parses back to the manifest |
| ReviewedManifest.ProposalByCode | workers/orggo_reviewed_organization_manifest.py:200-233 | the proposal's items by code; the strict path refuses a repeated code |
| ReviewedManifest.Prepare | workers/orggo_reviewed_organization_manifest.py:236-311 | succeeds iff the manifest is preparable; the action of each item is whether a current row has its id |
| ReviewedManifest.Commit | workers/orggo_reviewed_organization_commit.py:85-100 | an all-reused manifest writes nothing; otherwise the batch is imported |
| ReviewedCommit.PreparableIff | workers/orggo_reviewed_organization_manifest.py:236-311 | exactly when a manifest can be committed: each item equals, field by field, the last proposal item of its code, which awaits review with no match; fits the current rows; nothing else changed; all or none materialised |
| ReviewedCommit.CommittedIsReviewed | workers/orggo_reviewed_organization_commit.py:45-100 | every row an accepted commit adds is current and has the id and name of a reviewed item of the proposal |
| ReviewedCommit.OtherChartIsRefused | workers/orggo_reviewed_organization_manifest.py:258-270 | a concrete manifest whose chart id is not the reviewed one is refused |
| ReviewedCommit.PartialIsRefused | workers/orggo_reviewed_organization_commit.py:59-71 | a partly materialised store is refused whatever the proposal says |
| ReviewedCommit.CommitSucceedsIff | workers/mois_reviewed_organization_commit.py:138-214 | a prepared commit succeeds iff all reused or no derived id belongs to a row |
| ReviewedCommit.SupersededIdFails | workers/orggo_reviewed_organization_commit.py:45-100 | a concrete manifest that is prepared for creation and refused by the import: its derived id belongs to a superseded row |
| ReviewedCommit.CommitKeepsNamesUnique | workers/orggo_reviewed_organization_commit.py:85-100 | current names stay unique up to white space, ids unique, the manifest's organizations current |
| ReviewedCommit.CommitIsIdempotent | workers/orggo_reviewed_organization_commit.py:45-100 | repeating prepare and commit reuses everything, creates nothing and leaves the store unchanged |
| ReviewedCommit.SubmittedManifest | workers/orggo_reviewed_organization_commit.py:45-100 | both laws for any manifest that parses |
| Receipts.ReceiptLog.FirstSection | apps/api/operator_review_metrics.py:216-224 | the first locked check: replay, conflict, or go on |
| Receipts.ReceiptLog.SecondSection | apps/api/operator_review_metrics.py:256-265 | the second locked check and the append, as one step, for every outcome of the write; text after a missing newline spoils the receipt before it |
| Receipts.ExecutionIsConsistent | apps/api/operator_review_metrics.py:197-265 | under any interleaving and any writes: logged ids are unique, every success carries the caller's request and actor and is in the log unless that is torn, successes under one id share one receipt, at most one not a replay |
| Receipts.LogGrows | apps/api/operator_review_metrics.py:197-265 | the log grows by appending until it is torn, then stays as it is; it loses at most the last receipt of the earlier log |
| Receipts.LostReceipts | apps/api/operator_review_metrics.py:145-154 | over any execution, exactly which successes are not in the log: none if it was never torn, else those whose receipts the one tearing move lost |
| Receipts.WholeWritesAreAccounted | apps/api/operator_review_metrics.py:197-265 | when every write is whole the log is never torn, only grows, and holds every success |
| Receipts.ShortWriteLosesReceipt | apps/api/operator_review_metrics.py:145-154 | a short write: the call succeeds, no read returns its receipt, every later call is refused |
| Receipts.MissingNewlineSpoilsReceipts | apps/api/operator_review_metrics.py:145-154 | a receipt written without its newline, replayed, and spoiled by the next append: three successes, no receipt |
| Receipts.OneReceiptPerRequest | apps/api/operator_review_metrics.py:197-265 | under any interleaving and any writes all successes under one id return one receipt; different data never both succeed |
| Receipts.SecondSectionAnswers | apps/api/operator_review_metrics.py:256-265 | appends iff the id is new, replays iff the logged receipt answers the call, refuses iff it does not |
| Receipts.FirstSectionAnswers | apps/api/operator_review_metrics.py:216-224 | the first section goes on iff no receipt has the id, replays the one that answers the call and refuses a different one |
| Receipts.UnreadableIsRefused | apps/api/operator_review_metrics.py:111-142 | a call whose read fails or that finds the log torn is refused and writes nothing |
| Receipts.PositionsAreKept | apps/api/operator_review_metrics.py:226-255 | whatever the threads do, logged occurrence positions lie between 1 and their count |
| ReviewSummary.OccurrencePosition | apps/api/operator_review_metrics.py:179-194 | always found; with distinct keys it is one more than the number of the organization's items before it in (audit date, review key) order, of as many as it has |
| ReviewSummary.Summarize | apps/api/operator_review_metrics.py:302-364 | per current key the last receipt of the manifest in the whole log; decided plus remaining is the item count; first and repeat occurrences by index |
| ReviewSummary.LatestIsLatest | apps/api/operator_review_metrics.py:306-321 | over the whole log, which keys are decided and with which receipt |
| ReviewSummary.LatestAreLast | apps/api/operator_review_metrics.py:317-321 | a key is decided iff it has a receipt, and reports its last one |
| ReviewSummary.SummaryMeans | apps/api/operator_review_metrics.py:302-364 | the clamp never acts; first and repeat occurrences partition the decided keys; everything reviewed iff keys are distinct and each has a receipt |
| ReviewSummary.SummaryOfExecution | apps/api/operator_review_metrics.py:302-364 | that partition holds for every log the threads can leave |
| ReviewSummary.P90Means | apps/api/operator_review_metrics.py:268-272 | the rank is ceil(9n/10) and in range; at least that many values are not above the result and the rest plus one not below |
| ReviewSummary.P90IgnoresOrder | apps/api/operator_review_metrics.py:268-272 | the percentile does not depend on the order of the values |
| Stager.FetchTerm | workers/legislative_activity.py:520-555 | no error iff all pages 2..N were fetched with their index under one total |
| Stager.Collect | workers/legislative_activity.py:557-574 | raises iff two rows of one bill differ; no error iff bills are distinct |
| Stager.Stage | workers/legislative_activity.py:520-624 | coverage complete iff all pages fetched under one total with that many distinct bills; when role codes are complete too, lead, co-sponsored and result counts are the numbers of fetched bills with that role or result, else none are given |
| Stager.MatchedIs | workers/legislative_activity.py:591-596 | the matched bills are exactly those with a role, in the order they were fetched |
| Stager.CountsConserve | workers/legislative_activity.py:591-605 | lead plus co-sponsored, and the result counts, each equal the matched bills |

## Left out

- Connectors, HTTP, API keys, XML and JSON parsing, record normalisers: records arrive as parsed values and a content hash is the canonical record.
- The data behind the policy, source and snapshot checks of a page commit, whose outcome is a parameter, and timestamps.
- A commit that is applied and then reported as failed, and a receipt whose closing fails: with either, FAILED can stand beside a committed page, and a run that committed its last page can end PARTIAL.
- Checkpoints whose JSON is malformed or whose cursor is null: checkpoints are typed values here.
- Error texts and error codes: a run's ending and its receipt status are modelled, the kind of error is not.
- Several semantic scopes in one feeder scope: a lane has one.
- Concurrent runs of one lane in several processes: runs follow one another, though any of them may die and stay RUNNING.
- The lower-bound probe of the meeting universe and the years loop around `_fetch_year`: each list is one `Fetching.FetchList`.
- workers/mpm_key_positions.py: one more cursor lane, whose resume also re-fetches the attachments already committed.
- workers/nec_assembly_candidates.py: a page loop without resume that collapses identical repeats and fails only on conflicting ones.
- Near-copies of the modelled lanes (gwanbo, local elections, committees, former members, biographies, business expense), staging modules, command lines, routing, rendering and scheduling.
- Parsing of the MOIS reviewed manifest, its receipt and `manifest_from_proposal`: the org.go parser is modelled, the two-phase commit covers both.
- Claims and evidence inside the organization claim batch: only its organization half is modelled.
- Medians, evidence rates and decision counters of the review summary: plain aggregates.
- ReviewSummary.P90Means: `ceil(9n/10)` is integer arithmetic; the rounding of `n * 0.90` in floating point is not modelled.
- Receipts.ExecutionIsConsistent: one process with one lock; other writers of the file, its size bound, its digest check and text that `splitlines` would split are represented by a read that may fail.
- AlioImport.ManifestRowsPass: the checks inside `validate_alio_item4_observation` on snapshot, source URL, policy, full text and key shape (packages/rendering/alio_organization_content.py:81-160) are not modelled.
- CursorReach.ReplayIsReached: stated for lanes whose consistency check holds along the history, which every modelled lane satisfies.
- Roster.RosterEnumerator.Run: materialization of the returned observations is not part of this model.
