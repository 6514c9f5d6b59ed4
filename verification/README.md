# MorphieCore in Dafny

MorphieCore is a gateway that stores provider credentials in small documents,
lends them to inference requests, and streams answers through a fallback chain
of upstream candidates. This project models its stateful cores and proves what
they promise over every run.

## What is modelled

**The credential store** (`Storage`, `Records`, `Store`, `Publication`,
`StoreRuns`, `Outcomes`, `SharedDocuments`, `Directories`, `StoreWitnesses`). A file is a visible version plus
the older versions that a loss of power may still bring back. One document per
provider holds the records of two partitions; every record publication is
bracketed by an intent marker of its alias. Each write may succeed, be refused before replacement,
fail with an unknown outcome, or be cut off by the end of the process, and the
power may fail between any two store operations. A process that dies inside an
operation stops it at the write in question, so a loss of power there is a
death followed by a loss of power. `Outcomes` says which end each publication
has and what it leaves; `SharedDocuments` is about pools, host ids and limits.

**The account lifecycle** (`Accounts`, `AccountSafety`, `AccountGuarantees`,
`AccountEffects`, `Renewals`, `Managers`, `AccountWitnesses`). Login, refresh and logout of one
profile as transactions that interleave freely with each other, with other
writers of the same document, with killed processes and with power losses.
`Managers` holds the transactions as methods that change an account field by
field, and `AccountEffects` what each of them needs and leaves. `Renewals` tells an issued credential from the refresh token it carries.

**Operator keys** (`ApiKeys`, `KeyGuarantees`, `KeyEffects`, `KeyManagers`,
`KeyWitnesses`).
Revision-checked mutations, pinned bindings and borrowing.

**Delivery** (`Delivery`, `DeliveryProgress`, `Bodies`, `Exchange`, `Execution`,
`CallRuns`, `CallProgress`, `Intakes`). The worker and the HTTP body that share a channel of one frame,
acknowledgements and flags, as interleaved steps and as the code of each side;
the fallback chain; attempts and deliveries as objects; and the intake loop
between them.

**The probe observer** (`Frames`, `FrameData`, `WireEvents`, `Wires`,
`ChatGrammar`, `ResponsesGrammar`, `WireObservers`). Incremental SSE validation
with a bounded buffer, against a parser that sees the whole stream, and that
parser against a grammar of the streams it accepts.

**Smaller cores**: route activation and selection (`Sorting`, `Activation`,
`Gateways`, `Selection`), device polling (`Polling`; section 3.5 of RFC 8628),
PNG inspection (`PngRows`, `PngChunks`, `PngGrammar`, `Pngs`, `PngLayout`,
`PngFiles`; sections 3 and 6 of RFC 2083), the probe ledger (`Ledgers`,
`LedgerRuns`), and the event streams a Chat client can be shown (`ChatEvents`,
`ChatOrder`).

## What the environment is assumed to do

- Random identifiers (tickets, record ids, epochs) are new when they are drawn.
- Every answer of the authority issues a credential of its own, numbered by
  `serial`. Its refresh token is a new one, that of the credential being renewed
  (repeated, or left out of an answer that may leave it out:
  `src/credential/grok.rs:350-371`), or none. A token that the authority calls
  new was never issued before.
- File-system faults, listing failures and the store's checkpoints are the
  fields of `Io`; sizes of serialized documents and records are the functions
  of `Codec`; a transaction that does not get its locks or well-formed input is
  not `granted`. What a driver's `validate` accepts and its `check_access` lends are
  two functions of the manager.
- An absent document is the document of revision 0.
- SSE decoders, encoders, JSON, UTF-8, zlib, CRC, digests and representability
  verdicts are arbitrary functions or values with the contract their caller
  relies on.

## What the proofs found

- A credential is handed to `driver.renew` at most once, but the refresh token
  it carries is not: an authority that leaves the token out of its answer, or
  repeats it, makes the next refresh send the same token again. This happens
  exactly then (`Renewals.CredentialsAreRenewedOnce`,
  `Renewals.TokensRepeatExactlyWhenKept`, `AccountWitnesses.TokenIsSentTwice`).
- A provider without a document can get its first record only beside at most 62
  other namespaces, although the store admits 64: the marker is written before
  namespaces are counted and counts as one. Beside 63 the publication reports an
  uncertain outcome and leaves the empty slot in recovery, on every try
  (`StoreRuns.FirstRecordNeedsTwoFreeNamespaces`; 63 announced providers lead
  there, `StoreWitnesses.RoomForANamespaceButNotForItsRecord`).
- Every replacement of a stored credential advances the generation, except one:
  a login begun over a record in recovery drops the quarantined credential under
  the old generation (`AccountGuarantees.ReplacementAdvancesGeneration`,
  `AccountGuarantees.QuarantineKeepsGeneration`; one failed marker write leads
  there, `AccountWitnesses.GenerationOutlivesItsCredential`). A generation still
  never names two credentials (`AccountGuarantees.GenerationNamesMaterial`).
- A revision of an operator key is good for one mutation that takes effect, also
  when that mutation reported an error. One that was left in recovery can be
  undone by a loss of power, and then its revision is good again
  (`KeyGuarantees.RevisionIsSpent`, `KeyWitnesses.UnsettledRevisionReturns`).
- Three bytes of buffer slack are exactly what the SSE observer needs
  (`Frames.SlackIsNeeded`).
- The cap of 900 seconds on the polling interval is never met by a grant that
  the device response allows (`Polling.CapIsNeverMet`).
- Activation does not depend on the order of the startup entries at all: a
  permutation also fails exactly when the original order does
  (`Activation.OrderIsIrrelevant`).

## Model

| member | source | states |
|---|---|---|
| Storage.WritesAreAtomic | src/credential/storage_fs.rs:122-150 | a write is atomic through a loss of power: success leaves only the new contents, a refusal changes nothing, and after any other end exactly the old versions and at most the new one may come back |
| Storage.Survivor | src/credential/storage_fs.rs:122-150 | a loss of power leaves one durable version, one of those that might have survived |
| Publication.PublishShape | src/credential/store.rs:374-458 | a publication adds at most the successor document to the file, touches no other marker, and changes documents only under a set marker or for good |
| Publication.PublishHonest | src/credential/store.rs:374-458 | success means the record is durable, visible and out of recovery; an error other than uncertainty means every document and every recovery flag is as before; no outcome touches another slot of either partition |
| Publication.PublishReads | src/credential/store.rs:296-345 | what reads as settled after any outcome is the new record, or the old one that was settled before |
| Publication.BracketStaysArmed | src/credential/store.rs:395-421 | publishing over a marker that is already set keeps it set until only the new document can survive |
| Publication.PublishKeepsSound | src/credential/store.rs:374-433 | every publication keeps the invariant of all slots of all documents |
| Publication.UnmarkedKeepsSound | src/credential/store.rs:434-458 | writers that change no record need no marker: any outcome keeps every slot sound and every record as it reads |
| Publication.ClearKeepsSound | src/credential/store.rs:358-370 | clearing an unpublished marker is sound because a slot that reads as empty is empty in every version that may survive |
| Publication.PowerLossIsHarmless | src/credential/storage_fs.rs:122-150 | a loss of power keeps the invariant and every record that reads without the recovery flag |
| StoreRuns.SharedWriters | src/credential/store.rs:219-286 | host ids, namespaces and pools leave every record and marker alone whatever their write does |
| StoreRuns.EveryRunIsSound | src/credential/store.rs:218-458 | every run of store operations, faults and power losses from an empty store keeps the invariant |
| StoreRuns.MarkersAreSound | src/credential/store.rs:280-458 | in every run, if two versions that may survive disagree on a record, its marker is set in every version of the marker |
| StoreRuns.SettledRecordsSurvive | src/credential/store.rs:296-345 | in every run, a record that reads without the recovery flag survives every loss of power |
| StoreRuns.FaultlessPublish | src/credential/store.rs:374-458 | without faults a publication that passes its checks succeeds exactly when the document may be written once its marker exists |
| StoreRuns.FirstRecordNeedsTwoFreeNamespaces | src/credential/store.rs:437-446 | the first record of a provider succeeds exactly when its document fits and it makes fewer than 64 namespaces with all others; beside 63 it is reported uncertain and leaves the empty slot in recovery, while announcing a provider succeeds beside 63 |
| StoreWitnesses.RoomForANamespaceButNotForItsRecord | src/credential/store.rs:437-446 | a run of 63 announcements leads to a store that refuses a provider its first record but still announces it |
| Outcomes.PublishAnswers | src/credential/store.rs:374-433 | from the faults, the checks before and what reads before alone: exactly when a publication is done, refused, uncertain or cut off; it is refused cleanly exactly when no marker was written, or when the document was refused over a settled record and the marker was put back |
| Outcomes.PublishLeavesRecovery | src/credential/store.rs:395-431 | a record is in recovery afterwards exactly when its marker was set, before or now, and not replaced by a clear one since |
| Outcomes.RefusedPublishRestores | src/credential/store.rs:413-421 | a document refused over a settled record, with the marker writes complete, answers a storage error and leaves the record as it read, and settled |
| Outcomes.RefusalsAreNamed | src/credential/store.rs:380-393 | the checks before the marker: a valid record of its own name, a readable document, room for 64 records, the size of a record; each with its own error |
| Outcomes.AliasesAreExact | src/credential/store.rs:306-325 | listing answers exactly the published and the marked aliases, exactly when the document reads, the directory lists, all names are aliases and there are at most 64 |
| Outcomes.AnyVersionMayReturn | src/credential/storage_fs.rs:122-150 | a loss of power may bring back every combination of versions of a document and a marker |
| SharedDocuments.SetPoolAnswers | src/credential/pool.rs:76-114 | compare-and-set: a pool is replaced exactly when the presented revision is the current one, all members resolve and the document can be written, and then only the new configuration under the next revision can survive |
| SharedDocuments.MembersResolve | src/credential/pool.rs:93-106 | a key member needs its published key, an account member a document that reads, an account in it, and `load` to accept it; each failure has its own error |
| SharedDocuments.DanglingIsFirst | src/credential/pool.rs:93-106 | the error of a pool is that of its first member that does not resolve |
| SharedDocuments.PoolRevisionIsSpent | src/credential/pool.rs:86-114 | once a configuration was answered as done, no other that presents the same revision changes anything, in any run and after any loss of power |
| SharedDocuments.HostIdIsIssuedOnce | src/credential/store.rs:219-240 | a host id that was newly issued is the host id of its provider in every later state |
| SharedDocuments.StoreStaysWithinLimits | src/credential/store.rs:374-458 | in every run at most 64 providers have a document, and every version that may survive is within the limits of documents, records and revisions |
| Directories.Directory.ReplaceDocument | src/credential/store.rs:437-458 | replacing the document does exactly what the disk function says |
| Directories.Directory.PublishRecord | src/credential/store.rs:374-433 | the steps of a publication are the disk function on every path, whose outcomes and traces `Outcomes.PublishAnswers` and `Outcomes.PublishLeavesRecovery` state exactly, and every exit leaves the store sound |
| Directories.Directory.ClearUnpublished | src/credential/store.rs:358-370 | clears the marker of an empty slot in recovery and nothing else |
| Directories.Directory.SetPool | src/credential/pool.rs:76-114 | resolves members one by one, with every error of reading or validating an account, compares the revision, writes the configuration under the next one, and changes no record |
| Directories.Directory.Aliases | src/credential/store.rs:306-325 | lists exactly the published aliases and those whose marker is set, or fails: on a read, on a foreign marker name, or beyond 64 names |
| AccountSafety.DraftEvolves | src/credential/manager.rs:138-412 | every published account keeps a bound principal, counts its revision up by one, never lowers its generation, and claims only an unclaimed principal |
| AccountSafety.StepKeepsInv | src/credential/manager.rs:138-446 | every transaction, fault, kill and power loss keeps the invariant of accounts, operations, issued and spent credentials |
| AccountSafety.EveryRunKeepsInv | src/credential/manager.rs:138-446 | the invariant holds after every interleaving |
| Renewals.CredentialsAreRenewedOnce | src/credential/manager.rs:279-299 | in every run, whatever the authority answers, no credential goes to `driver.renew` twice, and what went there is in no version that could come back |
| Renewals.RenewalFollowsDurableRemoval | src/credential/manager.rs:279-299 | a credential is renewed only after a durable document without it exists |
| Renewals.TokensRepeatExactlyWhenKept | src/credential/grok.rs:350-371 | in every run a renewal sends a refresh token that an earlier one sent if and only if the answer that issued its credential repeated the token or left it out |
| Renewals.StoredTokensWereSentExactlyWhenKept | src/credential/grok.rs:350-371 | a credential in a version that may survive carries a token that was already sent if and only if its answer repeated the token or left it out |
| Renewals.AnswersDecideWhatIsKept | src/credential/grok.rs:350-371 | the credential of an answer keeps a refresh token exactly when the answer hands it on, and it is that of the credential being renewed |
| Renewals.RotatedTokensAreSentOnce | src/credential/siwc.rs:110-118 | when no answer hands a token on, no refresh token is ever sent twice |
| AccountWitnesses.TokenIsSentTwice | src/credential/grok.rs:361-364 | a login and two refreshes, the first answered without a new token, send one token twice |
| AccountGuarantees.BorrowedMaterialIsConfirmed | src/credential/access.rs:65-88 | whatever is borrowed was issued to the pinned alias and confirmed for the pinned principal, so a pending replacement is never lent, and was never spent |
| AccountGuarantees.DeadTicketsStayDead | src/credential/manager.rs:218-224 | a ticket that its account no longer names, or that nobody holds, stays dead through every run |
| AccountGuarantees.SupersededLoginPublishesNothing | src/credential/manager.rs:182-250 | once its ticket is dead a login publishes neither a credential nor a client, whatever happens and whatever the authority answers |
| AccountGuarantees.WhatSupersedes | src/credential/manager.rs:155-172 | a published logout, refresh start or newer login, or any of them that leaves the record in recovery, kills every older ticket |
| AccountGuarantees.DropTouchesOnlyItsTicket | src/credential/manager.rs:421-446 | dropping a ticket changes that ticket and the revision and nothing else |
| AccountGuarantees.StoredAccountsAreValid | src/credential/model.rs:213-243 | in every run every version that may survive holds valid accounts and binds no principal to two aliases |
| AccountGuarantees.DraftsAreValid | src/credential/model.rs:213-243 | on well-formed input no transaction builds an account that the store would refuse |
| AccountGuarantees.PrincipalsAreWrittenOnce | src/credential/manager.rs:225-243 | a durable binding of an alias to a client and principal is never changed, by any run or power loss |
| AccountGuarantees.ReplacementAdvancesGeneration | src/credential/model.rs:204-212 | a changed credential has the next generation exactly when the step is not a login over a record in recovery |
| AccountGuarantees.QuarantineKeepsGeneration | src/credential/manager.rs:155-172 | every login over a quarantined credential drops it under its old generation |
| AccountWitnesses.GenerationOutlivesItsCredential | src/credential/manager.rs:155-172 | a login whose last marker write fails and another login lead to such a drop, which is published |
| AccountGuarantees.GenerationNamesMaterial | src/credential/access.rs:65-88 | two borrows at one generation lend the same credential, in every run |
| AccountEffects.BindIsExact | src/credential/access.rs:26-39 | a binding exists exactly for an accepted account with a principal, and pins its client and principal |
| AccountEffects.BorrowIsExact | src/credential/access.rs:65-88 | a borrow lends the stored credential exactly when the record is settled, bound as pinned, accepted and lent by its driver, and not expired |
| AccountEffects.OtherAliasesAreUndisturbed | src/credential/manager.rs:138-446 | no transaction, however it ends, disturbs what reads of another alias |
| AccountEffects.LogoutPublishes | src/credential/manager.rs:373-397 | a logout publishes exactly with the lock on an accepted account whose counters are not exhausted |
| AccountEffects.LogoutLeavesNothing | src/credential/manager.rs:389-397 | after a logout every version that may survive holds the account signed out, with no credential, pending replacement or ticket, and bound as before |
| AccountEffects.LogoutForgets | src/credential/manager.rs:378-388 | a logout of an alias without an account clears its marker and nothing else |
| AccountEffects.LogoutLastsUntilLogin | src/credential/manager.rs:367-398 | after a logout nothing of the account is lent, in any run, until a login of it ends |
| AccountEffects.BeginLoginPublishes | src/credential/manager.rs:155-172 | a login begins exactly with the lock, a new ticket, and an accepted account of the right client without a pending replacement |
| AccountEffects.BeginLoginKeeps | src/credential/manager.rs:155-181 | a login that begins changes nothing that can be borrowed, and of a record in recovery keeps only what it is bound to |
| AccountEffects.RetainClientPublishes | src/credential/manager.rs:182-206 | a registered client is kept exactly for a login that owns an unbound account with the initial client |
| AccountEffects.FinishLoginPublishes | src/credential/manager.rs:218-248 | a login ends by publishing exactly when it owns its account, client and principal agree, the driver accepts the grant, and no other alias claims the principal |
| AccountEffects.FinishedLoginLends | src/credential/manager.rs:243-250 | what a finished login was granted is lent at once, to its principal, and its ticket is gone |
| AccountEffects.DropLoginPublishes | src/credential/manager.rs:421-446 | a ticket is taken out exactly when its settled account still names it |
| AccountEffects.StartRefreshPublishes | src/credential/manager.rs:279-293 | a refresh starts exactly with the lock on a settled accepted account that holds a refresh token and no pending replacement |
| AccountEffects.RefreshSuspends | src/credential/manager.rs:279-299 | an account under renewal lends nothing, and the refresh holds the lock and the credential that it took |
| AccountEffects.RenewVerifiedPublishes | src/credential/manager.rs:311-329 | a verified renewal is published exactly for the bound principal with a credential that the driver accepts: under the lock the account cannot have moved |
| AccountEffects.RenewalResumes | src/credential/manager.rs:326-331 | a verified renewal is lent at once |
| AccountEffects.PendingIsStored | src/credential/manager.rs:302-309 | a pending replacement is stored, not lent, and verified under the same lock |
| AccountEffects.PendingIsResumed | src/credential/manager.rs:269-278 | a refresh over a stored pending replacement sends nothing and resumes its verification, also after a kill or a loss of power |
| AccountEffects.VerifiedPublishes | src/credential/manager.rs:337-364 | a pending replacement is put in force exactly when it was confirmed for the bound principal and the driver accepts it |
| AccountEffects.VerifiedLends | src/credential/manager.rs:360-366 | a confirmed replacement is lent at once |
| AccountEffects.RefreshReleases | src/credential/manager.rs:268-366 | a refresh that succeeds, is refused, fails, is killed or loses power gives up the lock of its account |
| Managers.LiveAccount.Advance | src/credential/model.rs:204-207 | counts the revision up, or refuses and changes nothing |
| Managers.LiveAccount.ReplaceCredential | src/credential/model.rs:208-212 | installs the credential under the next generation, or refuses and changes nothing |
| Managers.CredentialManager.LoadAccount | src/credential/manager.rs:68-90 | a record in recovery is read without its material, and an account that the driver does not validate as read is refused |
| Managers.CredentialManager.BeginLogin | src/credential/manager.rs:155-181 | publishes exactly the draft of a login's start, on every path |
| Managers.CredentialManager.RetainClient | src/credential/manager.rs:182-206 | publishes exactly the draft that keeps a registered client |
| Managers.CredentialManager.CheckAvailable | src/credential/manager.rs:233-242 | the loop over aliases passes exactly when they can be listed and loaded and none is bound to the client and principal |
| Managers.CredentialManager.FinishLogin | src/credential/manager.rs:218-250 | publishes exactly the draft of a login's end |
| Managers.CredentialManager.DropTicket | src/credential/manager.rs:421-446 | publishes exactly the draft of a dropped ticket |
| Managers.CredentialManager.StartRefresh | src/credential/manager.rs:279-295 | publishes the account without its credential, and hands that credential on exactly when there was one to renew and the publication succeeded |
| Managers.CredentialManager.FinishRenewal | src/credential/manager.rs:311-330 | publishes exactly the draft of a verified renewal |
| Managers.CredentialManager.StorePending | src/credential/manager.rs:302-309 | publishes the pending replacement before it is verified |
| Managers.CredentialManager.CompleteRenewal | src/credential/manager.rs:332-366 | publishes exactly the draft of a confirmed pending renewal |
| Managers.CredentialManager.Logout | src/credential/manager.rs:367-398 | publishes exactly the draft of a logout (`AccountEffects.LogoutLeavesNothing` says what it leaves), or clears the marker of an unpublished record |
| KeyGuarantees.PinnedKey | src/credential/api_key.rs:135-149 | a binding lends only the material it was made for, and only if in every state since then the visible key was that very record |
| KeyGuarantees.GoneStaysGone | src/credential/api_key.rs:89-98 | a key that stopped being the visible one is never readable as settled again |
| KeyGuarantees.RevisionIsSpent | src/credential/api_key.rs:350-366 | after a mutation has taken effect, whatever it reported, no later one that presents the same revision changes anything |
| KeyGuarantees.DoneTookEffect | src/credential/api_key.rs:350-366 | a mutation that is reported done has taken effect |
| KeyGuarantees.RevisionNamesKey | src/credential/api_key.rs:89-98 | two keys of an alias that read without the recovery flag at one revision, anywhere along a run, are the same key |
| KeyWitnesses.UnsettledRevisionReturns | src/credential/api_key.rs:350-366 | a replacement left in recovery, a loss of power, and another replacement that presents the same revision and takes effect |
| KeyGuarantees.StoredKeysAreValid | src/credential/api_key.rs:51-72 | in every run every version holds valid keys: 1 <= generation <= revision, and a removed key keeps no secret |
| KeyGuarantees.PlansAreValid | src/credential/api_key.rs:192-260 | a mutation of a valid key on well-formed input builds a valid key |
| KeyEffects.BindIsExact | src/credential/api_key.rs:326-348 | a binding pins the visible record; one that must be usable exists exactly for an enabled settled key |
| KeyEffects.BorrowIsExact | src/credential/api_key.rs:135-149 | a borrow lends the stored secret exactly when the key is settled, enabled and the very record that is pinned |
| KeyEffects.AddPublishes | src/credential/api_key.rs:169-189 | a key is added exactly to a settled alias without one, and either refusal has its error |
| KeyEffects.MutationPublishes | src/credential/api_key.rs:350-366 | a mutation publishes exactly on the current revision of a key that can be counted up, and to switch it only if it is settled and not removed; the errors are told apart |
| KeyEffects.AddedKeyLends | src/credential/api_key.rs:178-190 | the secret of an added key can be bound and borrowed at once |
| KeyEffects.ReplacedKeyLends | src/credential/api_key.rs:199-204 | after a replacement the new secret is lent, under the next revision and generation of the same record |
| KeyEffects.EnabledKeyLends | src/credential/api_key.rs:206-228 | after enabling, a new binding succeeds and lends the secret that the key had before |
| KeyEffects.DisabledKeyIdles | src/credential/api_key.rs:206-228 | after disabling, no binding for use exists and no binding borrows, though the secret is kept |
| KeyEffects.RemovedKeyIdles | src/credential/api_key.rs:257-262 | after removal no binding borrows and no version that may survive holds the secret |
| KeyEffects.IdleUntilMutated | src/credential/api_key.rs:135-149 | in every run a disabled or removed key is borrowed by no binding until a mutation has taken it to a later revision |
| KeyManagers.LiveKey.Advance | src/credential/api_key.rs:89-98 | counts revision and, for new material, generation up under a new epoch |
| KeyManagers.KeyManager.Add | src/credential/api_key.rs:167-190 | does exactly what the plan of adding a key says |
| KeyManagers.KeyManager.Replace | src/credential/api_key.rs:192-205 | does exactly what the plan of replacing a key says |
| KeyManagers.KeyManager.SetEnabled | src/credential/api_key.rs:206-228 | does exactly what the plan of enabling or disabling a key says, which `KeyEffects.EnabledKeyLends` and `KeyEffects.DisabledKeyIdles` state through borrowing |
| KeyManagers.KeyManager.Remove | src/credential/api_key.rs:230-264 | keeps a tombstone, or clears the marker of a key that was never published |
| Delivery.DeliveryIsInOrder | src/gateway/body.rs:61-158 | in every interleaving the client has a prefix of the frames sent, at most one frame is in flight, acknowledgements lag by at most one, and all frames come from one candidate |
| Delivery.CleanEndIsComplete | src/gateway/body.rs:61-97 | the body ends without an error only if the producer completed and the client has every frame |
| Delivery.FailureIsFinal | src/gateway/body.rs:61-97 | once the worker fails no clean end and no further frame is possible, even when the flag is set after the consumer checked it |
| Delivery.PublicationFreezesCandidate | src/gateway/body.rs:136-158 | once a frame is offered the candidate never changes |
| DeliveryProgress.CompletionIsReported | src/gateway/body.rs:88-95 | in every interleaving a body that has taken everything of a completed worker ends cleanly at its next poll |
| DeliveryProgress.FrameIsYielded | src/gateway/body.rs:76-83 | in every interleaving a frame that its worker awaits reaches the client at the next poll, and the worker goes on |
| DeliveryProgress.StreamsCanComplete | src/gateway/body.rs:61-158 | for every candidate and all frames some run delivers exactly these frames and ends cleanly |
| DeliveryProgress.CompletionNeedsFinish | src/gateway/body.rs:319-331 | in every run a worker is complete only if its producer ended well while it was running |
| DeliveryProgress.InterruptionEnds | src/gateway/body.rs:319-340 | in every interleaving shutdown and deadline stop a producer where it stands; its worker ends as failed and tells a body that listens |
| DeliveryProgress.LeavingAborts | src/gateway/body.rs:99-103 | in every interleaving a client that leaves drops what was on its way, and the producer can be aborted without any report |
| DeliveryProgress.LostFrameFails | src/gateway/body.rs:146-156 | a worker whose frame was lost ends as failed |
| Bodies.PollIsSteps | src/gateway/body.rs:61-97 | an uninterrupted poll is a run of at most three protocol steps and keeps the protocol's invariant |
| Bodies.PollAnswers | src/gateway/body.rs:61-97 | a poll yields the next frame in order or none, ends cleanly only when all was sent and seen, and fails once the worker has |
| Bodies.Link.PollNext | src/gateway/body.rs:61-97 | the code of a poll is that run; each answer is exact: failure once failed, pending on an empty channel, the end exactly of a completed worker, and otherwise the frame in flight |
| Bodies.Link.OpenBody | src/gateway/body.rs:344-367 | the response starts exactly on a frame of the right type from a worker that has not failed, and freezes the candidate |
| Bodies.Link.OfferChunk | src/gateway/body.rs:136-154 | a frame is published before it is queued, and queued in order while the body listens |
| Bodies.Link.Settle | src/gateway/body.rs:326-341 | the worker sets its flag before it reports an error, complete exactly on success, and reports only to a body that listens with room in the channel |
| Exchange.ProduceChain | src/gateway/exchange.rs:33-140 | dispatched candidates are a contiguous prefix within the budget; each step was permitted, before publication and deadline; the chain stops exactly where the rule fails |
| Exchange.AdvancesExactly | src/execution/fallback.rs:9-41 | the chain moves on exactly when there is another candidate within the budget, nothing is published, the deadline has not passed, and the error permits it |
| Execution.Attempt.Begin | src/execution/attempt.rs:158-202 | begins exactly as the state function says |
| Execution.Attempt.Push | src/execution/attempt.rs:203-229 | takes what the decoder consumes, withholds the final event, rejects for good |
| Execution.Attempt.Finish | src/execution/attempt.rs:253-286 | accepts an end of input that the decoder closes, and rejects otherwise |
| Execution.ResponseDelivery.EncodeJson | src/execution/delivery.rs:93-113 | encodes a body only of the bound, validated attempt |
| Execution.ResponseDelivery.EncodeEvents | src/execution/delivery.rs:114-139 | encodes events only of the bound attempt |
| Execution.ResponseDelivery.FinishStream | src/execution/delivery.rs:140-157 | encodes the withheld end only of a validated attempt |
| Execution.ResponseDelivery.Commit | src/execution/delivery.rs:209-215 | commits only a delivery that has rendered |
| Execution.ResponseDelivery.Complete | src/execution/delivery.rs:216-223 | completes only after commit and the end of output, for the bound attempt |
| CallRuns.TerminalIsWithheld | src/execution/delivery.rs:66-223 | over every call sequence all output is of one attempt, at most one output is final, it is last and follows validation, and completion follows it |
| CallRuns.ClosedDeliveryEmitsNothing | src/execution/delivery.rs:86-92 | a rejected, cancelled or ended delivery emits nothing more, and a rejected one never commits |
| CallRuns.RejectedAttemptIsNeverUsed | src/execution/attempt.rs:287-309 | after an attempt is rejected or cancelled nothing of it is encoded or completed |
| CallRuns.CompletionFollowsCommit | src/execution/lifecycle.rs:45-66 | completion only follows a commit of rendered output |
| CallProgress.PushHandsOn | src/execution/attempt.rs:203-229 | a stream hands on every event that its decoder emits, in order, but the final one, which it keeps, and is rejected exactly when the decoder fails or overreaches |
| CallProgress.PushCollects | src/execution/attempt.rs:209-215 | a body is collected exactly up to its limit |
| CallProgress.FinishDecodes | src/execution/attempt.rs:253-286 | the end of input is accepted exactly of a body in progress that its decoder closes, and changes nothing when repeated |
| CallProgress.EventsAreEncoded | src/execution/delivery.rs:114-138 | events are encoded exactly if none is final, of the bound attempt, by an open delivery; anything else rejects it |
| CallProgress.WholeBodyCompletes | src/execution/delivery.rs:93-223 | every body within the limit that decodes is answered and completed |
| CallProgress.StreamCompletes | src/execution/delivery.rs:114-223 | every stream that its decoder ends is encoded as it comes, ended after validation, and completed |
| Intakes.SendFrames | src/gateway/body.rs:108-158 | hands over the frames in order with a commit after each acknowledgement; it fails exactly when the delivery cannot commit or the body goes away before the last one |
| Intakes.FeedChunk | src/gateway/intake.rs:34-56 | feeds a prefix of the chunk, all of it on success, however little the decoder takes at a time, and terminates |
| Intakes.Produce | src/gateway/intake.rs:13-81 | the attempt is fed a prefix of the body within the limit, each byte once and in order, and what is handed over is a prefix of what the encoder yielded, in call order; a body that its decoder gets through succeeds exactly when it arrives whole within the limit, the encoder answers and closes, and the client stays for every frame |
| Frames.SplittingIsExact | examples/probe_support/wire.py:49-53 | splitting loses nothing, cuts only at blank lines, and leaves none inside a frame or in the rest |
| Frames.FirstIsStable | examples/probe_support/wire.py:49-53 | the first delimiter of a prefix is the first delimiter of the whole text |
| Frames.DrainIsWhole | examples/probe_support/wire.py:49-143 | the frame loop computes the whole-stream reference |
| Frames.OverBound | examples/probe_support/wire.py:143 | text over the buffer's bound is rejected however it goes on |
| Frames.FeedIsWhole | examples/probe_support/wire.py:45-143 | however the text is cut, the buffer ends as the reference does |
| Frames.SlackIsNeeded | examples/probe_support/wire.py:143 | independence of the cut holds if and only if the slack is at least three bytes |
| Wires.FragmentationIndependence | examples/probe_support/wire.py:39-166 | for every byte stream and every cut, acceptance, terminal, text and snapshot are those of the whole-stream parser |
| Wires.BufferIsBounded | examples/probe_support/wire.py:39-143 | after any accepted push at most 2^20 + 3 bytes stay buffered, with no complete frame among them |
| Wires.AcceptedStreamsEnd | examples/probe_support/wire.py:62-166 | an accepted stream ends in one data-bearing frame, for chat the only `[DONE]`; its text is within bounds and equals the snapshot |
| FrameData.LinesComeBack | examples/probe_support/wire.py:57-61 | splitting into lines gives back the lines a text was made of, whichever way each one ends |
| FrameData.DataComesBack | examples/probe_support/wire.py:57-61 | the data of a frame is the text whose lines were marked as data, with or without a space, whatever other lines stand between |
| ChatGrammar.ChatAcceptance | examples/probe_support/wire.py:49-166 | a chat stream is accepted exactly within the limits and the grammar (legal events, one that finishes, `[DONE]`, nothing more); the text is the contents of the choices joined in frame order, and the terminal is the one reason to finish |
| ResponsesGrammar.ResponsesAcceptance | examples/probe_support/wire.py:105-166 | a responses stream is accepted exactly within the limits and the grammar and if its text agrees with the completed response; each part is its deltas joined in order |
| ResponsesGrammar.GrownParts | examples/probe_support/wire.py:106-115 | the parts are those that deltas name, each the concatenation in frame order of the deltas at its coordinates |
| ResponsesGrammar.JoinedInOrder | examples/probe_support/wire.py:161 | parts are joined in the order of their coordinates |
| ResponsesGrammar.ItemsInOrder | examples/probe_support/wire.py:126-132 | the completed response is read item by item in order, and fails if any item does |
| Frames.WidthHoldsBits | examples/probe_support/wire.py:54 | the width of a character is that of the shortest UTF-8 form that holds its bits |
| WireEvents.LeastExists | examples/probe_support/wire.py:161 | text parts have a least coordinate, so that joining them in order is well defined |
| WireObservers.Wire.HandleChat | examples/probe_support/wire.py:78-104 | updates the fields exactly as the chat event function says, whose effect over a whole stream `ChatGrammar.ChatAcceptance` states |
| WireObservers.Wire.HandleResponses | examples/probe_support/wire.py:105-136 | updates the fields exactly as the responses event function says |
| WireObservers.Wire.Push | examples/probe_support/wire.py:29-143 | moves the observer exactly as the state function says; a refused push closes it to every later call |
| WireObservers.Wire.Finish | examples/probe_support/wire.py:145-166 | reports once, exactly what the state function says |
| WireObservers.ObserveStream | examples/probe_support/wire.py:14-166 | an observer that is fed any cut of a stream reports what the whole-stream parser reports |
| Sorting.StableSortIsUnique | src/gateway/config.rs:319-325 | the sort by position is the only stable sort of the candidates |
| Activation.GroupsAreCanonical | src/gateway/config.rs:210-331 | a group is in route order by endpoint and credential order within it; only a group of one keeps a scope |
| Activation.OrderIsIrrelevant | src/gateway/config.rs:210-331 | every permutation of the entries activates the same groups, or fails as well |
| Activation.ActivationAnswers | src/gateway/config.rs:210-331 | a gateway is activated exactly when every entry lies on the route of its model, with a known provider and a credential whose sources all pass, none that brings a candidate is repeated, no group exceeds 64, and there is something to serve |
| Activation.ActivatedGroups | src/gateway/config.rs:210-331 | the groups are those of the entries that bring candidates, each in route order |
| Activation.CandidatesAreSources | src/gateway/config.rs:244-310 | an entry brings the first source of its credential, or with fallback as many as its budget allows, in order, each under its replay scope |
| Gateways.PushCandidates | src/gateway/config.rs:244-310 | the sources of a credential join the group in order, up to the pool's budget and the planning limit |
| Gateways.Activate | src/gateway/config.rs:210-331 | activation fails or yields exactly the specified groups |
| Selection.PositionsAreExact | src/execution/plan.rs:110-145 | ordinals are in range, strictly increasing, and exactly those of the representable candidates |
| Selection.SelectCandidates | src/execution/plan.rs:110-145 | selection keeps exactly the representable candidates, all or none when all are required, and names the error otherwise |
| Selection.Eligible | src/gateway/mod.rs:64-91 | answers exactly the representable candidates in group order, or refuses |
| Selection.ActivatedGroupsFit | src/execution/plan.rs:120 | an activated group is not empty and within the planning limit |
| Polling.Poll | src/credential/grok.rs:193-239 | the loop sends exactly the polls of the run function |
| Polling.PollsArePaced | src/credential/oauth.rs:65-77 | every poll waits for the current interval, is due before the deadline, and the interval has grown by five seconds per `slow_down` |
| Polling.AtMost899Polls | src/credential/grok.rs:169-239 | no answers lead to more than 899 polls |
| Polling.AtMost19SlowPolls | src/credential/grok.rs:331-336 | when every reply asks to slow down there are at most 19 polls |
| Polling.BoundsAreReached | src/credential/grok.rs:169-239 | both bounds are reached |
| Polling.CapIsNeverMet | src/credential/grok.rs:331-336 | no poll of an allowed grant reaches the interval's cap |
| Polling.PollingEnds | src/credential/grok.rs:193-239 | polling ends with the first answer and as that answer says, or as expired exactly when the next wait would reach the deadline or the interval its cap |
| Polling.DevicesAreBounded | src/credential/grok.rs:144-192 | the times of a device response are taken exactly with a lifetime and an interval of at most 300 seconds, five by default and at least one, and the grant expires at its lifetime or after 900 seconds |
| PngRows.FiltersInvert | examples/probe_support/image_generation.py:76-92 | for every filter, row and number of channels, reconstruction undoes the standard's filter and the filter undoes reconstruction |
| PngRows.FiltersPredict | examples/probe_support/image_generation.py:82-88 | the filters that predict the left pixel or the row above store zeros wherever that prediction holds |
| PngRows.PredictorsAreNear | examples/probe_support/image_generation.py:86-91 | the average is the middle of two samples rounded down, and the Paeth predictor the nearest of three to their plane |
| PngRows.Closest | examples/probe_support/image_generation.py:90-91 | the first nearest of left, above and upper left is the standard's Paeth predictor, ties included |
| PngRows.ReconstructRow | examples/probe_support/image_generation.py:76-92 | the in-place loop computes the reconstructed row |
| PngRows.ImagesSurvive | examples/probe_support/image_generation.py:71-99 | any image, filtered row by row in any way, is reconstructed exactly |
| PngRows.CountColored | examples/probe_support/image_generation.py:71-99 | the row loop fails exactly on an unknown filter, and counts over the reconstructed image |
| PngGrammar.StepsFollowGrammar | examples/probe_support/image_generation.py:29-61 | the cursor loop accepts exactly the grammar: header first and only there, contiguous data after any palette, an empty end chunk last |
| PngLayout.FilesComeBack | examples/probe_support/image_generation.py:27-60 | a file that the standard lays out is split into the chunks it was written from |
| PngLayout.OnlyLaidFilesSplit | examples/probe_support/image_generation.py:27-61 | and no other file splits: nothing is skipped, shared or left over |
| PngLayout.HeaderComesBack | examples/probe_support/image_generation.py:39-43 | the header of a true-colour image is read back exactly when its size is allowed |
| PngLayout.OnlySuchHeaders | examples/probe_support/image_generation.py:39-43 | and no other header is accepted |
| PngLayout.AcceptedChunksAreIntact | examples/probe_support/image_generation.py:33-37 | every chunk of an accepted file has a legal type and the checksum of its type and data, within the limits |
| Pngs.ReadChunks | examples/probe_support/image_generation.py:29-61 | the cursor makes progress and ends exactly at the end of the file |
| Pngs.InspectPng | examples/probe_support/image_generation.py:24-102 | answers exactly for well-laid files with a raster of the announced size and known filters, and judges the image they hold |
| Pngs.ColoredMeans | examples/probe_support/image_generation.py:93-102 | the content is right exactly when some pixel shows the colour, and one in each full hundred |
| Pngs.StandardImagesAreRead | examples/probe_support/image_generation.py:71-99 | a file that holds a filtered image is read as that image |
| PngFiles.RastersComeBack | examples/probe_support/image_generation.py:72-76 | a raster is read as the rows and filter bytes it was written from |
| PngFiles.WrittenImagesAreRead | examples/probe_support/image_generation.py:20-102 | from end to end: any image of an allowed size, filtered in any way, compressed and written as the standard says, is accepted and read as that very image |
| Ledgers.Run.Register | examples/probe_support/ledger.py:316-347 | registers all cases or none |
| Ledgers.Run.Reserve | examples/probe_support/ledger.py:349-392 | reserves an attempt exactly within budget, for an open model and a new scenario |
| Ledgers.Run.Dispatch | examples/probe_support/ledger.py:399-406 | moves only a reserved attempt |
| Ledgers.Run.Finish | examples/probe_support/ledger.py:408-435 | ends only an open attempt, and blocks its model on a stopping state |
| Ledgers.InsertedIsIncluded | examples/probe_support/ledger.py:316-347 | cases are registered exactly when they are legal and agree with the table and with each other, each then under its own terms and no others |
| LedgerRuns.RunsKeepBook | examples/probe_support/ledger.py:316-435 | in every interleaving attempts stay within the limit, scenarios unique, and exactly the models with a stopping attempt are blocked |
| LedgerRuns.NothingIsTakenBack | examples/probe_support/ledger.py:316-435 | no interleaving refunds an attempt, moves a state back, unblocks a model or changes a case |
| LedgerRuns.StoppedModelsStayStopped | examples/probe_support/ledger.py:349-392 | after a stopping attempt no process reserves for that model again |
| LedgerRuns.TokensStayWithinPlan | examples/probe_support/ledger.py:349-392 | reserved tokens are at most the limit times the tokens of the plan |
| LedgerRuns.SnapshotsListEachOnce | examples/probe_support/ledger.py:437-469 | a snapshot lists every registered or reserved scenario exactly once, and no other |
| ChatEvents.ChatStreamsHaveShape | src/lowering/events.rs:101-216 | an accepted Chat stream has at most one message, to which all calls belong, of one part or of text followed by audio |
| ChatEvents.ChatStreamsOnlyGrow | src/lowering/events.rs:154-216 | items, parts and recorded probabilities are never taken back or rewritten |
| ChatEvents.TextAnswersAreShown | src/semantic/task/generation/event.rs:290-653 | every text answer is accepted from start to end, with the probabilities of its deltas added up in order |
| ChatOrder.FinishedIsFinal | src/semantic/task/generation/event.rs:235-247 | in every accepted stream a finished item or part never changes again, and value, metadata and end of a part come in this order |
| ChatOrder.CallsFollowTheirMessage | src/semantic/task/generation/event.rs:310-335 | in every accepted stream the calls of a message follow it in one block, the message refuses nothing, and each call has one part |
| ChatOrder.CompletedItemsAreWhole | src/semantic/task/generation/event.rs:619-633 | an item completes only when all its parts have finished |
| ChatOrder.AudioFollowsText | src/lowering/events.rs:204-216 | audio may follow the text of an open message |

## Left out

- Network, TLS, HTTP framing, routing, command line, listeners and diagnostics: plumbing without the properties above.
- Serialization: documents, accounts and keys are values, so that aliasing between live objects and stored bytes is not modelled; the objects of `Managers` and `KeyManagers` are read from and written to them as the source does.
- Waking, polling contexts and the timing of back-pressure in `src/gateway/body.rs`: a step that is not enabled changes nothing.
- Locks: a transaction is one step, and a lock that is taken is a step that is refused; liveness under contention is not modelled.
- File permissions, symbolic links and access-control checks of `src/credential/storage_fs.rs`.
- `add_api_key` creates its domain in a transaction of its own, which is the separate namespace action of the store.
- Which error a driver's `validate` returns; all of them are one.
- Revocation at the authority after a logout, and the status values that operations return.
- AccountGuarantees.WhatSupersedes: a power loss can bring an older marker and document back, but it also ends every login under way.
- Wires.FragmentationIndependence: which error a refused stream reports is not stated, because it does depend on the cut; nor are the counters of a refused observer.
- Lone surrogates in JSON escapes, and the exact numbers of JSON reals other than zero.
- `examples/provider_probe_observation.ts`: the same framing and slack with another event function; it would add an easy member.
- ChatEvents: annotations, usage, progress, replay, audio data, byte budgets and the terminal event are one flag of an event, and nothing is stated about them.
- Ledger: identity, digest and expiry checks of the plan are one flag; the order of pending scenarios and the metrics of an attempt are not modelled.
- Polling: the overflow of a clock reading, and the spelling of user codes and verification addresses.
- Image, speech and transcription entries of activation are a flag that says whether any were activated; error kinds of a failed activation are not distinguished.
- Dialect tables, header checks, model discovery, probe scripts and fixtures: flat branching.
