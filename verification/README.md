# Durable state of the local memory service: models and proofs

The service keeps four kinds of durable state that must survive crashes, retries and several
processes: governed links between namespaces, a journal of accepted requests, client
configuration files, and captured files. This project models the code that changes that state,
step by step, and proves what holds over whole runs. It also models the wire format and the lease
that keeps two processes from owning the store at once.

`dafny verify dfyconfig.toml` checks the whole project.

## How the model is built

**Bridge governance** (`Governance*.dfy`, `BridgeGovernance.dfy`, `Sorting.dfy`). A store is four
tables: proposals, link projections, durable links and receipts. Each transaction is a function from
a store to a new store and an answer, or to a refusal that changes nothing; the class
`BridgeGovernance` does the same in place and is proved against these functions. `Inv` is the
invariant of all transitions, `AuditClean` is the program's own integrity audit. The main results
are about every run from an empty store:

* with a clock that never goes back, the tables stay without fault, after every call and after every
  expiry within a sweep, exactly when each expiry is of a proposal that is pending or whose stored
  link yields to it (`RunStaysCleanIffExpiriesYield`; `ExpiryIsCleanIffLinkYields` for one expiry);
* a caller can keep to that by one rule: write no approval for a link while another proposal for it
  is disabled and may still expire. Refused and replayed approvals are free. Then the audit finds no
  error, up to its row capacity (`EveryRunIsClean`);
* without the rule the audit can fail. The expiry sweep rewrites the link of the expiring proposal
  without asking who owns it. `StrandedLink` is a run of six calls, each one allowed (disable,
  then propose the link anew, as docs/BRIDGE_GOVERNANCE.md:94-95 advises), after which the approved
  proposal has lost its link to the expired one and every audit fails;
* at most one proposal for a link is approved, a stored proposal is the fold of its receipts, the
  active listing and connected recall show exactly what is effectively approved, the sweep is
  invisible to readers, and repeated sweeps leave nothing due;
* for every kind of call, exactly when it commits, what a commit leaves in the four tables, in the
  answer and for readers, and that a refusal says what was wrong (`GovernanceOutcomes.dfy`);
* what the audit notices (`GovernanceTamper.dfy`): any change of the proposals, the link projections
  or the durable links alone, and any change of one receipt but for the creation time of the link it
  carries;
* a committed request that is issued again never writes. It is answered with the *current* proposal
  (docs/BRIDGE_GOVERNANCE.md:60-61 says the recorded result), unless another proposal took the link over; then
  it is refused with an integrity error.

**Files under crashes** (`CrashDisk.dfy`). A directory is a map from names to contents. Every file
operation may work, fail with an error, or be the point at which the process dies. Three protocols
are written as methods over this disk, and each contract holds for every choice of fates:

* `ConfigPublication.dfy`: the journalled publication of several client configuration files. Any
  crashes and any crashed recoveries leave none or all of the files published once a recovery
  completes, recovery never overwrites bytes that the journal does not know, and a plan whose target
  was edited since is never published;
* `PreclaimRepair.dfy`: the sealing of an empty journal's files. Until a receipt turns retiring its
  files are each at exactly one of two names, and at most eight receipts exist. One undisturbed
  later call completes the same repair, unless a call ended in one of two dead ends: while it wrote
  a temporary receipt (an error is enough), after which every later call refuses for good
  (`TornReceiptSticks`), or in a retirement between the temporary receipt and the move, after which
  every later call refuses while a new lock file stands (`RetirementCanStick`). `TempPassesIff` shows
  that no other leftover of a cut-off call is refused;
* `ErrorResolution.dfy`: the archiving of classified capture errors under a two-phase manifest.

**Request journal** (`RequestJournal.dfy`, `JournalInventory.dfy`, `CoreRequestJournal.dfy`). Rows
are a map; accepting, finishing and pruning are functions on it and methods of the class. Runs mix
the calls of processes that open the journal one after the other with different configurations. A
mutation whose outcome was reported as unknown never runs again (`UnknownIsNeverAccepted`), and reading
page by page through a changing journal is exact or refused (`BrowsingIsExact`).

**Wire protocol** (`Utf8.dfy`, `CanonicalJson.dfy`, `BigEndian.dfy`, `CoreProtocol.dfy`). A printer
and a lenient parser for float-free JSON (sections 2 to 7 of RFC 8259), with the rule that decoding
accepts only canonical bytes, and frames over a connection that delivers its bytes piecemeal.
`RevisionDigest.dfy` uses it for the bytes that a journal revision hashes: equal bytes come only from
the same filter over the same rows, so revisions can be compared as the values they were made of.

**Authority lease** (`AuthorityLease.dfy`). Lock files, open file descriptions, lease objects in
processes, and the steps open, acquire, register, close, fork, exit and outside replacement in any
order. Safety needs one condition: an object that a fork copied must not be closed while the lease of
its owner is open, since closing unlocks the description they share. Steps keep the locks and leases
sound throughout exactly when no close breaks that condition (`RunStaysSoundIffProper`), and then a
core lease is alone. `LeaseBesideACore` is a run of six steps from an empty world that breaks it, and
ends with a core lease passing beside the first lease, whether that is a core or a local one.
`CoreIsAloneIfForksWait` removes the condition for processes that fork only while all their leases
are registered.

**Client text and captures** (`TomlMerge.dfy`, `TomlReading.dfy`, `CaptureIdentity.dfy`). Merging the
server's two TOML sections: a reader finds the server's settings and everybody else's in the merged
text. Two things hold only under a condition. A text with a character beyond U+FFFF is written as a
surrogate pair, which TOML refuses (`StringBack`). And a table whose header the program does not
recognize, such as one with a comment or an array of tables, is removed when it follows the server's
section (`OthersKeptIff`, `CommentedTableIsLost`). Then the passes by which a captured document gets and keeps its identity. Preparing a
prepared record again only cuts its two counters to the clamp of 1,000,000. Retries send one request
for each record exactly when no redaction counter passes the clamp in the first pass
(`RetriesAgreeIff`).

Digests, stable identifiers and random names are modelled as free constructors or as numbers that
are never used twice; nothing is claimed about cryptography. Times and weights are integers.

## Model

| member | source | states |
|---|---|---|
| BridgeGovernanceService.BridgeGovernance.Propose | bridge_governance.py:1139-1270 | the tables and the reply are those of one propose transaction: a replay, a refusal that changes nothing, or one new pending proposal with its first receipt |
| BridgeGovernanceService.BridgeGovernance.MaterializeApprovedLink | bridge_governance.py:1272-1373 | an approval inserts or updates exactly its own durable row, or is refused without a write |
| BridgeGovernanceService.BridgeGovernance.Record | bridge_governance.py:1375-1408 | the new version, its link projection and its receipt are written together |
| BridgeGovernanceService.BridgeGovernance.Review | bridge_governance.py:1410-1530 | approve and reject with compare-and-swap on the revision; every refusal leaves all four tables as they were |
| BridgeGovernanceService.BridgeGovernance.CompatApprove | bridge_governance.py:1532-1711 | proposal and approval in one transaction, rolled back whole when either cannot be recorded |
| BridgeGovernanceService.BridgeGovernance.Deactivate | bridge_governance.py:1713-1862 | disable and revoke of the proposal that owns the link, or a refusal that changes nothing |
| BridgeGovernanceService.BridgeGovernance.ExpireProjection | bridge_governance.py:1908-2016 | one expiry of a pending, approved or disabled proposal, with the link row rewritten whoever owns it |
| BridgeGovernanceService.BridgeGovernance.ExpireDue | bridge_governance.py:2018-2078 | the sweep in row order up to its limit; one refusal undoes all of it |
| BridgeGovernanceService.BridgeGovernance.ListActiveNamespaceLinks | bridge_governance.py:2436-2514 | the first rows, up to the limit, whose projection, proposal and durable row all pass the reader's tests |
| BridgeGovernanceService.BridgeGovernance.ResolveRecallContexts | bridge_governance.py:2516-2576 | the recall answer built from the listed links: local, sorted neighbours, global |
| BridgeGovernanceService.BridgeGovernance.AuditIntegrity | bridge_governance.py:2578-3013 | reports no fault exactly when every check of the audit passes |
| GovernanceInvariant.StoredProposal | bridge_governance.py:410-515 | under the invariant every stored proposal is bound to its last receipt and passes the check made at every read |
| GovernanceInvariant.CreatedInv | bridge_governance.py:1047-1101 | a new pending proposal with its first receipt keeps the invariant of all four tables |
| GovernanceInvariant.AdvanceInv | bridge_governance.py:1103-1137 | every allowed transition keeps numbering, revision chain, immutable fields, ownership, evidence, provenance and the link in the receipt |
| GovernanceInvariant.AdvanceLinksInv | bridge_governance.py:1375-1408 | the part of that about links: one owner each, rows that agree with it, creation times that never change |
| GovernanceInvariant.EmptyStoreInv | bridge_governance.py:344-361 | an empty store is sound |
| GovernanceRuns.SameLinkIffSameEndpoints | bridge_governance.py:847-891 | two requests name the same link exactly when relation, direction and endpoints agree, up to order when bidirectional |
| GovernanceRuns.ProposeKeeps | bridge_governance.py:1139-1270 | a propose call keeps the invariant and never makes an expiry unsafe |
| GovernanceRuns.ApprovalFits | bridge_governance.py:1272-1373 | an approval whose row was materialized is a legal move, also when it takes over the row of an ended proposal |
| GovernanceRuns.ReviewKeeps | bridge_governance.py:1410-1530 | a review keeps the invariant; a replay leaves expiries as safe as they were, and so does a review written while no other proposal for the link is disabled and may still expire |
| GovernanceRuns.CompatKeeps | bridge_governance.py:1532-1711 | the same for the compatibility lane, whose two receipts are one step |
| GovernanceRuns.DeactivateKeeps | bridge_governance.py:1713-1862 | disable and revoke keep the invariant and expiry safety |
| GovernanceRuns.ExpireKeeps | bridge_governance.py:1908-2016 | an expiry whose link yields commits and keeps the invariant |
| GovernanceRuns.ExpireEffect | bridge_governance.py:1908-2016 | an expiry changes one proposal, to expired, and no immutable field |
| GovernanceRuns.ExpiredStays | bridge_governance.py:59-71 | an expired proposal has no later receipt |
| GovernanceRuns.SweepKeeps | bridge_governance.py:2018-2078 | a sweep whose expiries all yield never refuses, keeps the invariant and touches due proposals only |
| GovernanceRuns.SafeSweepYields | bridge_governance.py:2018-2078 | where every disabled proposal that may still expire owns its link, the expiries of every sweep yield |
| GovernanceRuns.StepKeeps | bridge_governance.py:1139-2078 | every call keeps the invariant as long as its expiries yield, and keeps expiries safe as long as an approval that it writes respects the approval rule |
| GovernanceRuns.RunKeeps | bridge_governance.py:1139-2078 | every run whose expiries yield keeps the invariant |
| GovernanceRuns.WaitingApprovalsYield | bridge_governance.py:1139-2078 | in a run that keeps the approval rule every expiry yields |
| GovernanceAudit.ChainIsHistory | bridge_governance.py:2812-2818 | the receipts of a proposal, filtered from the table and sorted by number, are exactly its history |
| GovernanceAudit.KnownIsCreation | bridge_governance.py:2750-2768 | the creation time that the audit remembers for a link is the one in its durable row |
| GovernanceAudit.SoundIsClean | bridge_governance.py:2578-3013 | a sound store passes the audit, for any order of equal timestamps, exactly when it is within the row capacity |
| GovernanceAuditLoops.ReadLinks | bridge_governance.py:2612-2658 | the scan of the link projections finds no fault exactly when each row is clean |
| GovernanceAuditLoops.ReadProposals | bridge_governance.py:2612-2658 | the scan of the proposals, likewise |
| GovernanceAuditLoops.ReadReceipts | bridge_governance.py:2660-2799 | the scan of the receipts groups them by proposal in order and finds no fault exactly when each row and its link are clean |
| GovernanceAuditLoops.CheckHistory | bridge_governance.py:2818-2862 | no fault exactly when numbering, chaining, transitions, immutable fields and the last projection all agree |
| GovernanceAuditLoops.CheckHistories | bridge_governance.py:2812-2874 | the same for all proposals, leaving each list sorted |
| GovernanceAuditLoops.CheckOrphans | bridge_governance.py:2876-2877 | no fault exactly when every receipt belongs to a stored proposal |
| GovernanceAuditLoops.CheckApproved | bridge_governance.py:2879-2890 | no fault exactly when every approved proposal owns its link, and the links that were ever approved |
| GovernanceAuditLoops.CheckSurfaces | bridge_governance.py:2891-2895 | no fault exactly when each of those has both its surfaces |
| GovernanceAuditLoops.CheckLinks | bridge_governance.py:2897-2975 | no fault exactly when each projection agrees with its proposal, its row and its owner's last receipt |
| GovernanceAuditLoops.CheckUngoverned | bridge_governance.py:2977-2978 | no fault exactly when every durable row has a projection |
| GovernanceAuditLoops.AuditTables | bridge_governance.py:2578-3013 | the loops together report no fault exactly when the audit's conditions hold |
| GovernanceTheorems.EveryRunIsClean | bridge_governance.py:2578-3013 | with a clock that never goes back and the approval rule kept by every approval that is written, every run from an empty store stays without fault and ends in a store that the audit passes, within its capacity |
| GovernanceTheorems.RunStaysCleanIffExpiriesYield | bridge_governance.py:1908-2078 | a run stays without fault throughout exactly when each of its expiries is of a proposal that is pending or whose link yields |
| GovernanceTheorems.SweepFaultlessIffYields | bridge_governance.py:2018-2078 | the same for one sweep, expiry by expiry |
| GovernanceTheorems.OneApprovalPerLink | bridge_governance.py:1284-1289 | no two approved proposals share a link |
| GovernanceTheorems.StoredIsFold | bridge_governance.py:1103-1137 | a stored proposal is what its sorted receipts, replayed from the first, lead to |
| GovernanceTheorems.CleanTakeoverYields | bridge_governance.py:1957-1988 | if the audit passes after an expiry, the link yielded to the expired proposal |
| GovernanceTheorems.ExpiryIsCleanIffLinkYields | bridge_governance.py:1957-1988 | an expiry leaves an auditable store if and only if no approved proposal owns the link and its row records the same review, weight and evidence |
| GovernanceReplay.ReceiptsOnlyGrow | bridge_governance.py:767-826 | no call removes or rewrites a receipt, whatever the store and the clock |
| GovernanceReplay.CommitLeavesReceipt | bridge_governance.py:767-826 | a call that committed left a receipt with its own content |
| GovernanceReplay.ReissueNeverWrites | bridge_governance.py:634-765 | issued again after any calls, by any policy and at any time, a committed request changes nothing |
| GovernanceReplay.OtherContentIsRefused | bridge_governance.py:652-667 | the same request id with other content is refused and changes nothing |
| GovernanceReplay.SameContentIffSameRequest | bridge_governance.py:1183-1195 | which fields of a proposal request make it the same content |
| GovernanceReplay.LinkCheckIffNotTaken | bridge_governance.py:517-620 | the link check of a stored proposal succeeds unless another proposal owns the link |
| GovernanceReplay.ReplayAnswers | bridge_governance.py:634-765 | a replay answers with the current proposal, its effective state and its link exactly when the link was not taken over |
| GovernanceReplay.UnapprovedIsNotTaken | bridge_governance.py:1284-1289 | a link is taken over only through an approval of another proposal |
| GovernanceReplay.ReissueAnswersCurrent | bridge_governance.py:634-765 | the two combined, for a committed call issued again at the end of any run |
| GovernanceReaders.ShownIffAuthorized | bridge_governance.py:2456-2510 | in a sound store the reader's tests pass exactly when some proposal for the link is effectively approved |
| GovernanceReaders.ListingIsExact | bridge_governance.py:2436-2514 | the listing before its limit is exactly the rows of the authorized links that touch the context |
| GovernanceReaders.MetIsExact | bridge_governance.py:2541-2563 | the neighbours collected are exactly those a usable link leads to, respecting direction |
| GovernanceReaders.FirstRows | bridge_governance.py:2436-2514 | the limit cuts the listing to that of the first keys |
| GovernanceReaders.RecallParts | bridge_governance.py:2532-2576 | the answer starts with the context, continues with neighbours in name order, ends with global, and names each once |
| GovernanceReaders.RecallIsExact | bridge_governance.py:2516-2576 | connected recall names exactly the context, its one-hop neighbours over effectively approved links, and global; when more than 1,000 links are listed, the neighbours over the links of the first 1,000 rows, and never a context that is not a neighbour |
| GovernanceSweep.SweepIsSilent | bridge_governance.py:2018-2078 | at every later time a sweep has changed no effective state and no listing |
| GovernanceSweep.SameShown | bridge_governance.py:2456-2510 | a link row that a sweep rewrote was not shown before either |
| GovernanceSweep.SweepCounts | bridge_governance.py:2018-2078 | a sweep expires as many proposals as are due, up to its limit |
| GovernanceSweep.SweepsDrain | bridge_governance.py:2018-2078 | repeated sweeps with any admissible limit leave nothing due, and how many it takes |
| GovernanceSweep.NothingDueIff | bridge_governance.py:2018-2078 | nothing is due exactly when no open proposal is past its window and no approved or disabled one past its link's |
| GovernanceTakeover.MaterializesIffFree | bridge_governance.py:1272-1326 | in a sound store an approval finds its row free unless another proposal for the link is approved |
| GovernanceTakeover.ApprovalCommitsIff | bridge_governance.py:1410-1530 | exactly when a well-formed fresh approval commits |
| GovernanceTakeover.StrandedLink | bridge_governance.py:1957-1988 | a concrete run with a steady clock that breaks the audit, because the approval rule was not kept |
| GovernanceOutcomes.TermsAreAsked | bridge_governance.py:847-891 | which link requests are accepted, and that the terms say what was asked, with the ends of a bidirectional link in text order |
| GovernanceOutcomes.RunKeepsIds | bridge_governance.py:1183-1215 | in every run each proposal stems from a request that has its receipt |
| GovernanceOutcomes.ProposalCommitsIff | bridge_governance.py:1139-1270 | exactly when a fresh proposal commits; it is then pending with what was asked and its windows, and no link has changed |
| GovernanceOutcomes.ReviewCommitsIff | bridge_governance.py:1410-1530 | exactly when a fresh approval or rejection commits |
| GovernanceOutcomes.ApprovalLeaves | bridge_governance.py:1410-1530 | an approval moves one proposal, turns its two link rows on with what was proposed and by whom, answers with them, and readers show the link until it runs out |
| GovernanceOutcomes.RejectionLeaves | bridge_governance.py:1410-1530 | a rejection ends one proposal, touches no link, and answers so |
| GovernanceOutcomes.DeactivationCommitsIff | bridge_governance.py:1713-1862 | a fresh, well-formed, confirmed deactivation with the current revision commits exactly when the owner is approved, or is disabled and is to be revoked |
| GovernanceOutcomes.DeactivationLeaves | bridge_governance.py:1713-1862 | the owner is disabled or revoked as asked, both its link rows are off and otherwise as they were, the answer is not active, and no reader shows the link at any time |
| GovernanceOutcomes.CompatCommitsIff | bridge_governance.py:1532-1711 | exactly when a fresh compatibility approval commits |
| GovernanceOutcomes.CompatLeaves | bridge_governance.py:1532-1711 | it adds one proposal with what was asked, approved by its proposer, with its link on, and changes no other proposal |
| GovernanceOutcomes.ExpiryLeaves | bridge_governance.py:1908-2016 | an expiry ends the proposal in the name of the system; the link it touches is off, otherwise as it was, and shown to no reader |
| GovernanceOutcomes.ReviewRefusals | bridge_governance.py:1410-1530 | each refusal of a fresh review names something that was wrong |
| GovernanceOutcomes.DeactivationRefusals | bridge_governance.py:1713-1862 | likewise for a deactivation |
| GovernanceOutcomes.ProposalRefusals | bridge_governance.py:1139-1270 | a fresh proposal is refused for its form alone |
| GovernanceOutcomes.CompatRefusals | bridge_governance.py:1532-1711 | a fresh compatibility approval is refused by the policy, for its form, or because the link is taken |
| GovernanceOutcomes.LinkSays | bridge_governance.py:517-620 | in a sound store both rows of a link repeat what its owner says, and the evidence names the owner's current version |
| GovernanceOutcomes.EndedForever | bridge_governance.py:59-71 | in every run a rejected, revoked or expired proposal stays as it ended |
| GovernanceOutcomes.AuthorizedIff | bridge_governance.py:2090-2100 | a link may be used exactly while some proposal for it is approved and its window has not ended |
| GovernanceTamper.TablesAreNoticed | bridge_governance.py:2578-3013 | two stores that the audit passes, with the same receipts and the same projections or the same durable links, are the same: a change of the proposals, the projections or the durable links does not pass |
| GovernanceTamper.ReceiptsAreCounted | bridge_governance.py:2812-2877 | a receipt that was removed, added or moved to another proposal does not pass the audit |
| GovernanceTamper.ReceiptIsNoticed | bridge_governance.py:2660-2862 | nor does any other change of one receipt, but for the creation time of the link that it carries |
| GovernanceTamper.ApprovalsHaveLinks | bridge_governance.py:2879-2975 | where the audit passes, every link that was ever approved has both its rows, and it is on exactly when its owner is approved |
| Sorting.StableSortSorts | bridge_governance.py:2815-2818 | the sort keeps the receipts and orders them by number |
| Sorting.OnlyArrangement | bridge_governance.py:2815-2818 | a numbered list is the only ascending arrangement of its members |
| ConfigPublication.Publisher.AtomicPayload | client_config.py:672-716 | an atomic write takes effect whole, or leaves at most one temporary file |
| ConfigPublication.Publisher.UnlinkPrivate | client_config.py:726-733 | a checked file is gone, or the call failed with nothing else changed |
| ConfigPublication.Publisher.RemoveStaged | client_config.py:838-842 | only a staged file with the staged bytes is removed |
| ConfigPublication.Publisher.RestoreTarget | client_config.py:809-837 | a rollback of one target touches only it, and only when its bytes are the original or the desired ones |
| ConfigPublication.Publisher.RollBack | client_config.py:809-842 | one entry of a prepared journal is undone, or stays recoverable |
| ConfigPublication.Publisher.RollForward | client_config.py:798-807 | one entry of a published journal is checked and its staged file removed |
| ConfigPublication.Publisher.CloseEntries | client_config.py:798-842 | cut off anywhere, every entry stays recoverable; completed, every entry is closed |
| ConfigPublication.Publisher.Recover | client_config.py:769-844 | recovery from any disk and any journal overwrites or removes only bytes the journal knows, ends the transaction, or leaves it pending |
| ConfigPublication.Publisher.CreateBackup | client_config.py:1038-1138 | a backup is a new file with the target's bytes |
| ConfigPublication.Publisher.StagePayload | client_config.py:847-872 | the desired bytes are in a new temporary file |
| ConfigPublication.Publisher.StageOne | client_config.py:900-922 | a plan made from other bytes is refused; otherwise backup, staged file and entry describe it |
| ConfigPublication.Publisher.Stage | client_config.py:899-922 | a plan whose target has changed since it was made stops the staging; otherwise the entries describe the plans, every target is untouched, and nothing but new backups and temporary files appeared |
| ConfigPublication.Publisher.PublishEntry | client_config.py:936-949 | one staged file is moved over a target that still holds its original |
| ConfigPublication.Publisher.PublishEntries | client_config.py:936-949 | moving the staged files keeps the prepared journal recoverable at every point |
| ConfigPublication.Publisher.PublishPrepared | client_config.py:935-961 | under the prepared journal: moves, the published journal, and the recovery that ends it after an error too |
| ConfigPublication.Publisher.RecoverInterrupted | client_config.py:965-984 | recovery of an interrupted publication ends in none or all of its plans, or leaves it interrupted |
| ConfigPublication.Publisher.PublishFresh | client_config.py:899-961 | none, all, or a recoverable journal; none when some plan is stale; every file but the targets is kept, and a success leaves a backup of each target; with nothing going wrong, all |
| ConfigPublication.Publisher.Publish | client_config.py:875-962 | duplicates and foreign targets are refused untouched; an earlier publication first ends as none or all of its plans or is still interrupted and stops the call; after it none, all, or a recoverable journal of the new plans: none when a target has changed since its plan was made, all when nothing goes wrong; other files are kept |
| ConfigPublication.Publisher.PublishAndRecover | client_config.py:769-962 | over any failures, crashes and crashed recoveries the outcome is none or all, one undisturbed recovery settles it, and stale plans are never published |
| ConfigPublication.Publisher.RecoverAgainAndAgain | client_config.py:769-844 | any number of recoveries over any disk spare every file whose bytes the journal does not know |
| ConfigPublication.FinishedMeans | client_config.py:798-844 | a closed prepared journal left no trace on any target, a closed published one carried out every plan |
| ConfigPublication.BecomesPublished | client_config.py:950-951 | flipping the journal takes effect at one point, before which all is undone and after which all is carried out |
| ConfigPublication.OthersKept | client_config.py:798-842 | handling one entry neither reopens nor spoils another |
| PreclaimRepair.Repairer.PublishReceipt | core_request_journal.py:1535-1602 | a receipt is published by one move from its own temporary file; exactly when its writing is cut short a torn temporary receipt is left |
| PreclaimRepair.Repairer.CleanTemps | core_request_journal.py:1801-1922 | leftover temporary receipts are removed, except exactly in the two stuck states, in which nothing changes |
| PreclaimRepair.TempPassesIff | core_request_journal.py:1835-1909 | exactly which temporary receipt of a cut-off repair the clean-up refuses: a torn one, or one of a retirement beside a new lock file |
| PreclaimRepair.RetirementCanStick | core_request_journal.py:2392-2411 | a cut-off retirement beside a new lock file leads to that state |
| PreclaimRepair.TornReceiptSticks | core_request_journal.py:1561-1572 | a receipt whose writing was cut short makes every later call refuse, whatever journal files stand |
| PreclaimRepair.PendingCanGoOn | core_request_journal.py:1801-1922 | a pending repair is refused exactly when its temporary receipt is torn |
| PreclaimRepair.BeginsTorn | core_request_journal.py:1558-1572 | creating the temporary receipt keeps every repair in order |
| PreclaimRepair.Repairer.ArchiveOne | core_request_journal.py:2307-2322 | one sealed file is moved once, or was moved by an earlier call |
| PreclaimRepair.Repairer.CompleteReceipt | core_request_journal.py:2323-2345 | the receipt turns complete at one point, once every file is archived |
| PreclaimRepair.Repairer.Finish | core_request_journal.py:2296-2345 | cut off anywhere the same repair stays pending or complete; undisturbed it completes with every file archived |
| PreclaimRepair.Repairer.RemoveArchive | core_request_journal.py:2414-2419 | an archive is removed only if it holds the sealed bytes |
| PreclaimRepair.Repairer.RemoveReceipt | core_request_journal.py:2420-2427 | the receipt goes last, after its archives |
| PreclaimRepair.Repairer.RemoveRetired | core_request_journal.py:2414-2427 | a retiring repair loses its archives, then its receipt |
| PreclaimRepair.Repairer.FinishRetiring | core_request_journal.py:2570-2582 | every cut-off retirement is ended, and no other receipt, temporary file or source changes |
| PreclaimRepair.Repairer.Retire | core_request_journal.py:2384-2427 | making room removes one completed repair and nothing else |
| PreclaimRepair.Repairer.Begin | core_request_journal.py:2665-2825 | exactly which journal files can be sealed, and what the new receipt says |
| PreclaimRepair.Repairer.StartAnew | core_request_journal.py:2641-2665 | with eight receipts the oldest completed one makes room first, and only then does one go |
| PreclaimRepair.Repairer.Proceed | core_request_journal.py:2570-2665 | retirements first, then the pending repair, then a new one; what makes room is no younger than any completed receipt that stays |
| PreclaimRepair.Repairer.Repair | core_request_journal.py:2488-2825 | the whole call, which calls itself on fewer receipts: sealed files stay at one place, a pending repair is carried over, at most the oldest of eight completed repairs makes room, all others and their archives stay as they are, and an undisturbed call answers as stated |
| PreclaimRepair.Repairer.FinishAcrossCrashes | core_request_journal.py:2488-2825 | over any crashes a pending repair stays itself, and one undisturbed start completes it unless an earlier one left a torn receipt; then it stays pending |
| PreclaimRepair.KeptStep | core_request_journal.py:2488-2825 | a file operation on one repair keeps every other one, and at most eight receipts |
| PreclaimRepair.Renamed | core_request_journal.py:2318-2320 | the move of one sealed file keeps all files at exactly one name |
| PreclaimRepair.NewJournalKeeps | core_request_journal.py:2632-2644 | new journal files may appear while no repair is under way |
| PreclaimRepair.FreshDirectoryKept | core_request_journal.py:2488-2569 | a directory where no repair ever ran is sound, whatever journal files lie there |
| PreclaimRepair.OneTemp | core_request_journal.py:1817-1819 | there is never more than one temporary receipt, so the clean-up limit of 32 is not reached |
| ErrorResolution.Resolver.MoveItem | capture_daemon.py:1788-1811 | an artifact is moved to an archive name that was free, and no artifact is lost |
| ErrorResolution.Resolver.WriteManifest | capture_daemon.py:189-214 | a manifest is replaced whole, or nothing but a hidden file appears |
| ErrorResolution.Resolver.RecordMoved | capture_daemon.py:2146-2148 | the manifest records the move and stays the same resolution |
| ErrorResolution.Resolver.ResumeItem | capture_daemon.py:2138-2148 | one item is moved if it still lies at its source, then recorded |
| ErrorResolution.Resolver.CompleteManifest | capture_daemon.py:2149-2152 | a manifest turns complete at one point, with every artifact archived and none at its source |
| ErrorResolution.Resolver.Resume | capture_daemon.py:2138-2152 | a manifest becomes complete only with every artifact archived |
| ErrorResolution.Resolver.Reconcile | capture_daemon.py:2111-2157 | an interrupted resolution is finished unless an unsafe artifact blocks it; only the manifest that can be resumed changes and only its artifacts are moved; blocked, or with no such manifest, nothing moves at all |
| ErrorResolution.Resolver.ListItems | capture_daemon.py:1118-1131 | one item with a new archive name for every selected artifact |
| ErrorResolution.Resolver.ArchiveSelected | capture_daemon.py:1095-1166 | everything the preflight selected is archived, and nothing but what it selected leaves the error directory |
| ErrorResolution.Resolver.Resolve | capture_daemon.py:1041-1183 | exactly when a confirmed resolution succeeds; unsafe artifacts block it untouched; without the historical scope every historical artifact stays, for every ending; a success leaves no terminal artifact, no historical one when asked, and counts those that were there |
| ErrorResolution.Resolver.ReconcileOnEachStart | capture_daemon.py:2111-2157 | over any crashes no artifact is lost and one undisturbed start finishes |
| ErrorResolution.ValidatedIff | capture_daemon.py:1920-2043 | a prepared manifest passes its validation exactly when it is well-formed and no unsafe artifact is present |
| ErrorResolution.SamePreflightIff | capture_daemon.py:1058-1087 | two preflights agree exactly when reason, scope, the selected artifacts and the number of unsafe ones agree |
| ErrorResolution.MoveKeeps | capture_daemon.py:1788-1811 | the move of one artifact keeps every listed artifact at exactly one place |
| ErrorResolution.CompletionKeeps | capture_daemon.py:2149-2152 | completing a manifest whose artifacts are all archived keeps every manifest sound |
| ErrorResolution.FreshDirectoryKept | capture_daemon.py:2111-2157 | a directory where no resolution ever ran is sound, whatever errors lie in it |
| ErrorResolution.NewErrorsKeep | capture_daemon.py:2111-2157 | new errors may be recorded at any time, also while a resolution is interrupted |
| RequestJournal.CallEvolves | core_request_journal.py:802-923 | what one call may do to the row of a key: nothing, its end, or its removal after the retention |
| RequestJournal.CallKeepsDates | core_request_journal.py:895-905 | ended rows carry an end time that is not before their acceptance |
| RequestJournal.CallKeepsBounds | core_request_journal.py:833-844 | both capacity bounds survive every call of a process whose own bounds are no larger |
| RequestJournal.RunKeepsBounds | core_request_journal.py:802-923 | both bounds hold throughout every run with restarts in which no process opens the journal with larger ones |
| RequestJournal.EveryRowWasAccepted | core_request_journal.py:845-859 | every row of a journal that began empty belongs to an acceptance of its key in the run, with its request, time and epoch |
| RequestJournal.AmbiguousForever | core_request_journal.py:1363-1383 | an ambiguous row never changes |
| RequestJournal.AcceptedUntilEnded | core_request_journal.py:1363-1383 | an accepted row stays until its request ends |
| RequestJournal.RememberedForHorizon | core_request_journal.py:1363-1383 | with a clock that never goes back an ended request is remembered for the whole horizon |
| RequestJournal.StandsUntilExpired | core_request_journal.py:802-866 | after an acceptance the key keeps that request until a call finds it ended and past its retention |
| RequestJournal.AcceptedAtMostOnce | core_request_journal.py:802-866 | two acceptances of a key lie more than the horizon apart, with a pruning between them |
| RequestJournal.AskedAgain | core_request_journal.py:822-832 | in between, the same request is answered as existing and any other as a conflict |
| RequestJournal.IdentifierExamples | core_request_journal.py:218-226 | which identifiers pass, by example, and that none longer than 128 characters does |
| RequestJournal.PruneForgets | core_request_journal.py:1363-1383 | a prune removes exactly the ended rows past their retention |
| RequestJournal.AcceptsIff | core_request_journal.py:802-866 | exactly when a mutation may run: well-formed, its key not remembered, and room within both bounds |
| RequestJournal.AcceptRecords | core_request_journal.py:802-866 | what a call leaves that accepts, that does not, or that is malformed: the new row, and the other rows that are not past their retention |
| RequestJournal.FinishRecords | core_request_journal.py:868-923 | what a finish records: completed without an error, ambiguous for an unknown outcome, failed otherwise, with the kind, the error and an end time that is the larger of now and the acceptance; a finish that does not fit changes nothing |
| RequestJournal.RunKeepsConsistent | core_request_journal.py:868-923 | in every run the outcome of each row fits its state |
| RequestJournal.UnknownIsNeverAccepted | core_request_journal.py:822-890 | once a finish recorded an unknown outcome, no later call of any run accepts the key |
| JournalInventory.SameSnapshotIff | core_request_journal.py:1022-1033 | two snapshots agree exactly for the same filter over the same filtered rows |
| JournalInventory.PageAt | core_request_journal.py:1064-1077 | a page is the next stretch of the ordered rows and points behind it |
| JournalInventory.PagingIsExact | core_request_journal.py:934-1110 | following the cursors through a changing journal reads exactly the first snapshot's rows or is refused, and it ends on an unchanged one |
| JournalInventory.OnlyOneOrder | core_request_journal.py:1013-1021 | the ascending order of the rows is unique |
| CoreRequestJournalService.CoreRequestJournal.constructor | core_request_journal.py:406-543 | opening prunes or leaves the rows, as asked |
| CoreRequestJournalService.CoreRequestJournal.Accept | core_request_journal.py:802-866 | prune, then look up, then both capacity tests, then insert; fresh exactly when the mutation may run |
| CoreRequestJournalService.CoreRequestJournal.Finish | core_request_journal.py:868-923 | ends exactly an accepted row of the same request, never before its acceptance time |
| CoreRequestJournalService.CoreRequestJournal.Prune | core_request_journal.py:1363-1383 | removes the ended rows past their retention and counts them |
| CoreRequestJournalService.CoreRequestJournal.SelectRows | core_request_journal.py:1013-1021 | the filtered rows in key order |
| CoreRequestJournalService.CoreRequestJournal.Inventory | core_request_journal.py:934-1146 | answers what the reply function says of the current rows, and changes nothing |
| CoreRequestJournalService.CoreRequestJournal.ReviewTargets | core_request_journal.py:1219-1318 | passes exactly when every single review passes, keys are distinct and the count is within bounds, with the same results |
| CoreRequestJournalService.OnlyUnresolvedPass | core_request_journal.py:1148-1217 | looking a target up among the unresolved rows decides as the single review does |
| CoreRequestJournalService.ReviewPassesIff | core_request_journal.py:1148-1217 | a target passes exactly when its row is ambiguous, or an accepted prune without outcome, with the given operation, epoch and revision in the expected journal; the result says what was seen |
| CoreRequestJournalService.ServedIff | core_request_journal.py:934-1050 | exactly when an inventory request is served |
| CoreRequestJournalService.ItemShows | core_request_journal.py:1079-1110 | an item shows its row as it is, with ages cut at both ends |
| CoreRequestJournalService.ReplyCounts | core_request_journal.py:1022-1110 | a reply counts the rows asked for, shows at most the limit of them and exactly that many when more follow, and names both snapshots |
| CoreRequestJournalService.NextIsWellFormed | core_request_journal.py:1064-1077 | the key and revision of a reply, put into the next request, make it well-formed and point behind the page |
| CoreRequestJournalService.BrowsingIsExact | core_request_journal.py:934-1110 | a reader that does so through a changing journal, and is never refused, has seen exactly the rows it asked for as they were at its first page, each once and in order; while they do not change it is not refused |
| BigEndian.PreImageIsInjective | core_request_journal.py:349-363 | the length-prefixed bytes that a revision digest hashes determine the list of records |
| RevisionDigest.SameImageIff | core_request_journal.py:349-398 | two revisions hash the same bytes exactly when they are the same kind, journal, filter and rows in order |
| RevisionDigest.SameSnapshotImageIff | core_request_journal.py:1022-1033 | two snapshots hash the same bytes exactly for the same filter over the same filtered rows |
| RevisionDigest.SameHeader | core_request_journal.py:1022-1029 | a header record determines the kind of revision, the journal, the store and the filter |
| RevisionDigest.SameRow | core_request_journal.py:1030-1033 | a row record determines all ten columns |
| BigEndian.UnpackPacked | core_protocol.py:279 | a length survives its four bytes |
| BigEndian.FirstByteWeighsMost | core_protocol.py:279 | the first byte is the most significant |
| BigEndian.PackUnpacked | core_protocol.py:374 | every header is the packing of the length it stands for |
| Utf8.EncodeThenDecode | core_protocol.py:235-253 | decoding gives back the text that was encoded |
| Utf8.DecodeThenEncode | core_protocol.py:253 | the strict decoder accepts only what the encoder writes |
| Utf8.EncodedExamples | core_protocol.py:248 | the bytes of one character of each length |
| CanonicalJson.ValueRoundTrip | core_protocol.py:235-258 | the parser reads a printed value back and stops behind it |
| CanonicalJson.SortedMembersSorts | core_protocol.py:243 | members are printed in key order, none lost |
| CanonicalJson.SameObjectIff | core_protocol.py:243 | two objects have one normal form exactly when they map the same keys to the same values |
| CanonicalJson.NormalKeepsAdmissible | core_protocol.py:191-232 | sorting members never leaves the admissible values |
| CanonicalJson.DecodesWhatWasPrinted | core_protocol.py:235-271 | decoding canonical bytes gives the value back, up to the order of members |
| CanonicalJson.AcceptsOnlyCanonical | core_protocol.py:251-271 | decoding accepts exactly the canonical bytes of admissible values |
| CanonicalJson.OneWireForm | core_protocol.py:235-248 | two values share their bytes exactly when they are the same value |
| CanonicalJson.ContainersAreJoined | core_protocol.py:239-247 | arrays and objects are their parts between brackets, joined by single commas, keys before colons |
| CanonicalJson.EscapesAre | core_protocol.py:239-247 | which characters of a text are escaped, and how |
| CanonicalJson.QuotedJoins | core_protocol.py:239-247 | a text is quoted character by character |
| CanonicalJson.NumbersAre | core_protocol.py:239-247 | numbers are decimal, the last digit last |
| TextOrder.PrecedesIff | core_protocol.py:243 | keys are ordered by the first differing character, smaller code first, and a prefix before what it begins |
| CoreProtocol.FrameRoundTrip | core_protocol.py:274-279 | an encoded frame is taken off a stream whole, with nothing behind it touched |
| CoreProtocol.TakenWasEncoded | core_protocol.py:368-382 | only encoded frames are ever taken |
| CoreProtocol.EncodesIff | core_protocol.py:274-279 | exactly which values can be sent under a bound, and how long their frames are |
| CoreProtocol.Connection.ReceiveExact | core_protocol.py:298-319 | any chunking of the stream gives exactly the asked bytes, or an early end, or a timeout |
| CoreProtocol.Connection.ReceiveFrame | core_protocol.py:322-388 | one frame is received and exactly its bytes are consumed, or the error says why |
| CoreProtocol.Connection.ReceiveFrames | core_protocol.py:322-388 | frames sent one after the other arrive as the same values in order |
| AuthorityLease.TryAcquire | core_authority.py:311-367 | a lease is granted, refused as fenced, or given up because the path was replaced, with the lock state to match |
| AuthorityLease.CoreAuthorityLease.AssertActiveFor | core_authority.py:381-438 | passes exactly for an open lease in its own process on the visible lock file and the pinned database |
| AuthorityLease.CoreAuthorityLease.BindDatabaseIdentity | core_authority.py:440-466 | pins the database once and keeps the lease passing |
| AuthorityLease.CoreAuthorityLease.InvalidateAfterFork | core_authority.py:369-379 | a registered object is dead in the child and the kernel lock untouched |
| AuthorityLease.CoreAuthorityLease.Close | core_authority.py:591-600 | closing unlocks the description once |
| AuthorityLease.StepKeepsIffProper | core_authority.py:311-600 | a step that can happen keeps locks compatible and genuine leases locked exactly when it is no improper close |
| AuthorityLease.CloseKeepsIffProper | core_authority.py:591-600 | closing an open object keeps the world sound exactly when no other genuine lease shares its description |
| AuthorityLease.RunStaysSoundIffProper | core_authority.py:311-600 | an interleaving stays sound throughout exactly when no close in it is improper |
| AuthorityLease.CoreExcludesOthers | core_authority.py:381-471 | in a sound world two passing leases are the same or both local |
| AuthorityLease.LeaseGrantedIff | core_authority.py:311-367 | a lease is granted exactly on the visible lock file when no lock stands on it, or only local ones and it is local; no other lease is disturbed |
| AuthorityLease.StaysActiveIff | core_authority.py:381-438 | a passing lease stops passing exactly when it is closed, its process exits, or the lock file or the pinned database is replaced |
| AuthorityLease.CoreMakesRoomIff | core_authority.py:591-600 | once a core lease is closed or its process has exited, the next one to ask gets a lease exactly when no copy is left open in a forked process after an exit |
| AuthorityLease.CoreIsAlone | core_authority.py:381-471 | in every interleaving without an improper close, while a core lease passes no other lease does; closing a copy whose owner has closed or is gone is allowed |
| AuthorityLease.CoreIsAloneIfForksWait | core_authority.py:39-50 | the same without a condition on closes, when forks wait for registration |
| AuthorityLease.ChildNeverPasses | core_authority.py:369-385 | no object that a fork gave to a child ever passes |
| AuthorityLease.ImproperCloseLetsCoreIn | core_authority.py:591-600 | an improper close under a core lease, or under the only local one, lets a core lease pass beside it |
| AuthorityLease.LeaseBesideACore | core_authority.py:591-600 | a run of six steps from an empty world ends with a core lease passing beside the first lease, be it core or local |
| TomlMerge.RemoveTomlSections | client_config.py:1210-1222 | the flag-driven pass keeps exactly the lines whose governing header is not one of the named sections |
| TomlMerge.MergeCodexConfigText | client_config.py:389-403 | the merged text is the right-trimmed rest, a blank line and the server block |
| TomlMerge.CleanedMerged | client_config.py:389-403 | cleaning a merged text gives back what it was merged into |
| TomlMerge.MergeAbsorbs | client_config.py:389-423 | merging twice equals merging the last server alone |
| TomlMerge.BlockIsOwn | client_config.py:406-423 | every line of the server block lies in one of the two sections, whatever the values contain |
| TomlReading.StringBack | client_config.py:1206-1207 | a quoted text is read back by a TOML reader exactly when no character needs a surrogate pair; otherwise it is refused |
| TomlReading.MergedSettings | client_config.py:389-423 | the merged text holds the server's settings once each, and for every other section the settings of the old text |
| TomlReading.ServerReadBack | client_config.py:406-423 | command, enabled flag and every environment setting are read back from the merged text, up to the same exception |
| TomlReading.OthersKeptIff | client_config.py:1210-1222 | lines of other tables are kept exactly when no table start that the program does not recognize stands behind the server's sections |
| TomlReading.CommentedTableIsLost | client_config.py:1210-1222 | a table whose header carries a comment is removed when it follows the server's section |
| CaptureIdentity.PreparedAgainIff | capture_daemon.py:4040-4153 | a second pass over a prepared record only cuts its counters, and is idle exactly when they are within the clamp |
| CaptureIdentity.PreparedIff | capture_daemon.py:4040-4153 | exactly which records can be prepared |
| CaptureIdentity.PreparedShows | capture_daemon.py:4040-4153 | each prepared field is the cleaned input field when one was given, and otherwise its default |
| CaptureIdentity.RequestShows | capture_daemon.py:4277-4312 | the request for a prepared record carries its fields as they are |
| CaptureIdentity.DocumentPreparedIff | capture_daemon.py:3989-4038 | a document is prepared exactly when each record is and no two have the same identity |
| CaptureIdentity.PrepareDocument | capture_daemon.py:3989-4038 | the loop over the records, with its duplicate check and its flag for whether to store |
| CaptureIdentity.PassSettles | capture_daemon.py:3989-4038 | after one pass every further pass, whatever identities it draws, only cuts counters, and after the second no pass changes anything |
| CaptureIdentity.SteadyRun | capture_daemon.py:3716-3757 | through all further attempts a prepared document changes at most by cut counters, and everything sent is what it says |
| CaptureIdentity.FullAttempt | capture_daemon.py:4324-4402 | an undisturbed attempt stores the prepared document and sends every record |
| CaptureIdentity.OneRequestPerRecord | capture_daemon.py:4324-4402 | over all crashes and retries each record is sent with one identity and one request, when no redaction counter passes the clamp in the first pass |
| CaptureIdentity.OneEffectPerRecord | capture_daemon.py:4324-4402 | with a ledger keyed by the identity each record has at most one effect |
| CaptureIdentity.LargeCountChangesRequest | capture_daemon.py:4277-4312 | a retry of one record sends the same request exactly when its redaction counter is within the clamp after the first pass |
| CaptureIdentity.RetriesAgreeIff | capture_daemon.py:4277-4402 | for a document that can be prepared, all crashes and retries send each record as one request exactly when no redaction counter passes the clamp in the first pass |

## Left out

- Bridge governance: cleaning of identifiers, reasons and evidence, the namespace catalog written beside a proposal, rows that are not valid JSON, and the two listings of proposals and of history; the audit's digest and counters.
- GovernanceTheorems.EveryRunIsClean: the audit's limit of 10,000 rows is a condition for its passing, since nothing bounds the tables; that the tables are without fault does not depend on it.
- GovernanceRuns.ExpireKeeps: an expiry id holds the time cut to whole seconds; times are integers here, so two expiries of one proposal within a second are the same call.
- Ownership, permission bits, links, sizes of files and races between a check and the operation behind it: files are contents with an identity.
- Power loss: a crash ends the process and keeps every completed file operation; what fsync adds beyond that is not modelled.
- SQLite: each transaction is one step; opening, migration and schema checks of the journal are not part of this model.
- ConfigPublication.Publisher.Publish: requires a non-empty plan list, as its only caller guarantees; with an empty list the program would write a journal that recovery refuses. Nobody else writes between two operations of one call.
- PreclaimRepair.Repairer.Begin: the check of the isolated copy is a parameter, and its scratch directory is not modelled; receipt times other than creation are not either.
- ErrorResolution.Resolver.Reconcile: assumes that nobody else removes listed artifacts; malformed manifests and files that are no manifests are covered. The quarantine of unsafe artifacts is not modelled.
- CoreRequestJournalService.CoreRequestJournal.Accept: the refusal of secret-shaped identifiers and the closed flag are not modelled; health and status reports only read.
- RevisionDigest.SameImageIff: texts of at most 128 characters, 64-bit times and records shorter than 2^64 bytes, as the journal's columns and the length prefix demand; texts outside printable ASCII, which the journal never stores, would be escaped by the program and are not here.
- CanonicalJson.DecodesWhatWasPrinted: numbers with a fraction or an exponent are outside the model, and text with lone surrogates cannot be written in it; the program refuses such text.
- AuthorityLease.TryAcquire: one attempt of the waiting loop; a fork between taking the lock and building the object is not modelled, nor is the reuse of a process identifier, and the lock-generation texts and durable epochs are left out.
- CaptureIdentity.OneRequestPerRecord: assumes that the redaction and naming rules of other modules are idempotent; a context name cut at 128 characters behind a dot or dash is not, and settles only at the second pass.
- CaptureIdentity.PrepareDocument: the two writes for plain-text documents are one step; claims, receipts and the discard of malformed claims are not modelled, so nothing is said about captures that are dropped.
- TomlMerge.MergeAbsorbs: environment keys are bare names, as the program's constants are.
- TomlReading.OthersKeptIff: multi-line strings and arrays are not read; each of their lines counts as a line of its own.
- GovernanceTamper.ReceiptIsNoticed: changes of several tables at once can agree with each other; nothing is said about them.
- The client, its binding, path policy, session bridge, image enrichment and backend routing: configuration and process plumbing without a protocol of their own.
