# Thawguard: verified models

Thawguard keeps branch freezes, forge access and sign-in state in SQLite, and
does its provider I/O between short transactions. This project models the
protocols that arrangement rests on and proves what they promise over every
input, every run or every reachable state. `dafny verify dfyconfig.toml`
checks all of it.

Each table is a map, set or sequence; each transaction is a pure function on
the tables and, beside it, a method of a class that changes the tables step by
step and is proved to do what the function says. Histories are sequences of
steps with the state before each and after the last, so the theorems about
them cover every interleaving of workers. No lemma relies on Dafny's automatic
induction.

| files | what they model |
|---|---|
| `BindingDerivation`, `BindingTheorems`, `BindingEffect`, `BindingService` | the binding read model and the bind and unbind commands |
| `ShadowAccess`, `ShadowService`, `ShadowRuns`, `ShadowWorld`, `ShadowHistory`, `ShadowReader` | shadow access runs, their periodic cadence, the identity revision and the reader |
| `Jobs`, `JobsTheorems` | the reconciliation queue |
| `JsonShape`, `StrictJson`, `NumericDate` | the two strict JSON validators and the NumericDate parser |
| `ConnectionCheck`, `CheckTheorems` | connection checks, edits and resets |
| `Authority`, `AuthorityInvariants`, `AuthorityHistory`, `AuthorityService` | accounts, invitations, repository grants and company sign-in |
| `PullRequestCache`, `ConvergenceTheorems` | pull request synchronisation, grouping and convergence |
| `Order`, `Wrappers` | text order, stable sorting, optional values, set sizes |

The methods of `AuthorityService` each equal a transaction function of
`Authority`; the history theorems are what give those functions meaning.

Four promises are false of the code as it stands. For each there is an input
that shows it and the exact condition under which it holds:

- The cache equals the forge's list if and only if the listing is clean
  (`CacheEqualsListingIff`); a repeated number breaks it
  (`RepeatedNumberIsMerged`).
- Completing a queue claim loses newer work if and only if the row was inserted
  again and claimed again under the same row id at the same instant
  (`LosesWorkIff`); a clock that steps back can bring that about
  (`EqualInstantsLoseWork`). It cannot happen while no row id is used again
  (`FreshIDsLoseNothing`), nor while no two claims of a row id share an instant,
  as under a clock that only goes forward (`DifferingInstantsLoseNothing`).
- The replayed grant events are the live grants once deleted repositories are
  discounted (`ReplayGivesLiveGrants`), and exactly the live grants while none is
  deleted (`TrailIsTheTable`, `DeletionLeavesTheTrail`).
- An unexpired pending invitation is acceptable if and only if every repository
  it offered still exists (`CountCheckIsSetEquality`, `DeletionStrandsALink`).

The last two turn on deleting a repository. Only the schema's cascade describes
that; the shipped code has no path that deletes one.

## Assumptions

- A transaction is atomic; one that fails half way leaves the tables as they were.
- Foreign keys and unique indexes hold, and cascade as the schema says.
- Run, identity, connection, user, invitation and session ids are never reused.
  Repository ids are not reused for the grant and invitation histories. Job row
  ids may be reused.
- Secrets, digests and state values are opaque and drawn distinct.
- The clock the periodic scan samples never goes back. The queue theorems assume
  nothing of the clock; where it matters, the statement says so.
- A pull request synchronisation is a series of statements, and webhook
  deliveries may upsert rows between any two of them and before the read
  (`ConvergedPublishesOpenAtRead`). `SyncedOpenRows`, `CacheEqualsListingIff` and
  `ConvergedPublishesExactly` say what its own statements leave when none does.
- Fixed-width timestamps compare as times, in nanoseconds.
- Provider answers, clocks, fresh ids and decryption results are inputs.

## Model

| member | source | states |
|---|---|---|
| `BindingTheorems.ReadyIff` | internal/forgeconnection/binding.go:492-621 | with current evidence a listed row is Ready if and only if it joins one visible remote and one compatible local that name only each other, neither appearing in any binding |
| `BindingTheorems.ReadyRemoteIff` | internal/forgeconnection/binding.go:587-618 | the map the bind command consults holds a repository exactly when it is half of a ready pair, and holds the other half |
| `BindingTheorems.ConsumedWholeGroups` | internal/forgeconnection/binding.go:492-568 | the set the first pass fills is always a union of whole locator groups |
| `BindingTheorems.EveryRemoteCoveredOnce` | internal/forgeconnection/binding.go:492-621 | each visible remote is either consumed by some binding, or its whole locator group stands behind the single row of its locator and behind no other |
| `BindingTheorems.EveryRemoteIsNamed` | internal/forgeconnection/binding.go:492-621 | no visible remote is lost between the passes: a listed row names it, a bound row exactly when a binding consumed it |
| `BindingTheorems.BoundRowNamesConsumed` | internal/forgeconnection/binding.go:517-567 | a bound row lists the full name of every remote it hides from the second pass |
| `BindingTheorems.BoundCurrentIff` | internal/forgeconnection/binding.go:517-567 | a bound row reads bound_current if and only if the bound remote is visible under the bound organization and local and remote name each other and nothing else |
| `BindingEffect.BindChangesOneState` | internal/forgeconnection/binding.go:463-621 | adding the binding of a ready pair changes that row to bound_current at the same index of the sorted list and leaves every other row as it was |
| `BindingEffect.UnbindChangesOneState` | internal/forgeconnection/binding.go:463-621 | removing a bound_current binding turns exactly that row back to Ready at the same index, and adding it again restores the table |
| `BindingEffect.RowsDifferent` | internal/forgeconnection/binding.go:729-746 | with current evidence or without, no two listed rows tie under the sort key, so the order of the list is fully determined |
| `BindingEffect.RowLessIsWeakOrder` | internal/forgeconnection/binding.go:729-759 | the row comparison is a strict weak order |
| `BindingService.BindCommitsIff` | internal/forgeconnection/binding.go:106-210 | a bind commits exactly when the form fences hold, evidence is current and the named repository incarnation is half of a ready pair; the uniqueness check behind the ready map never refuses |
| `BindingService.BindRewritesOneRow` | internal/forgeconnection/binding.go:106-210 | seen through the read model, a committed bind rewrites one state, Ready to bound_current, and moves nothing |
| `BindingService.UnbindUndoesBind` | internal/forgeconnection/binding.go:212-305 | unbinding at the next revision commits and restores the bindings table and the whole read model |
| `BindingService.BindKeepsValid` | internal/forgeconnection/binding.go:106-210 | a bind keeps repositories and remotes bound at most once, to existing repositories |
| `BindingService.UnbindKeepsValid` | internal/forgeconnection/binding.go:212-305 | an unbind keeps the bindings table well formed |
| `BindingService.EventsTellTheBindings` | internal/forgeconnection/binding.go:774-819 | over any history of binds, unbinds, checks, edits and changing listings the binding revision counts the committed events, and replaying them gives the bound repositories |
| `BindingService.Service.BindRepository` | internal/forgeconnection/binding.go:106-210 | refuses in the order of the guards, or inserts one binding, steps the binding revision and records one event |
| `BindingService.Service.UnbindRepository` | internal/forgeconnection/binding.go:212-305 | refuses in the order of the guards, or deletes one binding, steps the binding revision and records one event |
| `BindingService.Service.LocalRepositoryByID` | internal/forgeconnection/binding.go:712-719 | the first listed repository with the id, if any |
| `BindingDerivation.DeriveRepositoryBindings` | internal/forgeconnection/binding.go:463-621 | the two loops with their shared set produce exactly the declarative derivation the theorems are about, sorted |
| `BindingDerivation.FirstPass` | internal/forgeconnection/binding.go:492-568 | rows and consumed set of the pass over bindings |
| `BindingDerivation.LocatorPass` | internal/forgeconnection/binding.go:587-618 | rows and ready pairs of the pass over sorted locators |
| `BindingDerivation.PreviewPass` | internal/forgeconnection/binding.go:570-585 | without current evidence each unconsumed remote gets its own preview row |
| `BindingDerivation.CurrentBoundRow` | internal/forgeconnection/binding.go:517-567 | the branch chain from conflict through drift to bound_current or not visible, for one binding |
| `BindingDerivation.CheckCurrentEvidence` | internal/forgeconnection/binding.go:623-643 | evidence is current only for an observed check of the stored revision and generation whose counts match the stored remotes |
| `BindingDerivation.ApplyRemoteGroup` | internal/forgeconnection/binding.go:666-691 | a group writes its common fields, blanks those that differ, and lists each full name once |
| `BindingDerivation.AppendRemoteFullNames` | internal/forgeconnection/binding.go:693-700 | full names are appended without repeats |
| `BindingDerivation.UnconsumedRemotes` | internal/forgeconnection/binding.go:702-710 | the group without consumed remotes, in order |
| `BindingDerivation.SmallestRemoteID` | internal/forgeconnection/binding.go:761-772 | the least remote id of a group |
| `BindingDerivation.IndexLocals` | internal/forgeconnection/binding.go:477-484 | the two local lookups agree with scanning the list |
| `BindingDerivation.IndexRemotes` | internal/forgeconnection/binding.go:485-490 | the two remote lookups agree with scanning the list |
| `ShadowHistory.OneUnfinishedAndThreeRows` | internal/forgeconnection/access_shadow.go:308-394 | in every reachable state at most one run is unfinished and it has the largest id, and at most three rows exist |
| `ShadowHistory.LateFinalizerNeverPublishes` | internal/forgeconnection/access_shadow.go:477-553 | once a run is over, its worker may return any time later with any answer and no table changes |
| `ShadowWorld.NewestCompleteStays` | internal/forgeconnection/access_shadow.go:739-759 | no step discards or rewrites the newest completed run: the very row stays until a newer run completes |
| `ShadowWorld.StepKeepsValid` | internal/forgeconnection/access_shadow.go:146-587 | every transaction, in any interleaving with lost and late workers, keeps the run, scope and observation invariants |
| `ShadowHistory.StoredRowIsFold` | internal/forgeconnection/access_shadow.go:665-705 | each pair's stored row is the fold of the completed runs, unlinks and unbinds so far |
| `ShadowHistory.StoredRowMeaning` | internal/forgeconnection/access_shadow.go:665-705 | a stored row carries the last completed classification since the pair was last dropped, and the most recent confirming one; no confirmation means there was none |
| `ShadowReader.EverythingWrittenReadsBack` | internal/forgeconnection/access_shadow_view.go:267-498 | every run and observation row any history can store passes all malformed-data checks and is read back as written |
| `ShadowReader.LoadObservations` | internal/forgeconnection/access_shadow_view.go:421-498 | loads exactly when every row is well formed and no pair repeats, and then maps each pair to its record |
| `ShadowReader.ObservationReadsBack` | internal/forgeconnection/access_shadow_view.go:421-498 | storing and loading an observation row is the identity on what the writer produces |
| `ShadowReader.RunReadsBack` | internal/forgeconnection/access_shadow_view.go:267-348 | storing and loading a run row is the identity on what the writer produces |
| `ShadowReader.SnapshotCountsSplit` | internal/forgeconnection/access_shadow_view.go:199-224 | the card of any completed run is well formed, its three counts are non-negative and split the pairs |
| `ShadowReader.AbsentCountIsObserved` | internal/forgeconnection/access_shadow_view.go:199-224 | the absent count derived by subtraction is the number of pairs the run confirmed absent |
| `ShadowReader.RunningLabelMatchesReservation` | internal/forgeconnection/access_shadow_view.go:171-197 | an attempt never shows an unknown outcome, and reads as running exactly while it turns a fenced reservation away |
| `ShadowReader.ValidPairsIff` | internal/forgeconnection/access_shadow.go:443-475 | the observation check passes if and only if every expected pair is classified exactly once, no other pair is, and every reason is known |
| `ShadowReader.PublicationCoversScope` | internal/forgeconnection/access_shadow.go:626-663 | a publication passed the scope check, so the stored pairs are then exactly the linked identities times the bound repositories, all carrying this run |
| `ShadowHistory.SameRevisionAndCountSameIdentities` | internal/forgeidentity/identity.go:13-39 | between any two reachable states equal access-identity revision and equal identity count mean the identical identity set, saturated or not |
| `ShadowHistory.SaturatedOnlyShrinks` | internal/forgeidentity/ceremony.go:612-622 | at the maximum revision no identity can be linked, so the set only shrinks from then on |
| `ShadowHistory.ScopeCurrentMeansSameScope` | internal/forgeconnection/access_shadow_view.go:247-265 | a run labelled current was reserved over exactly today's identities and bindings, although only revisions and counts are compared |
| `ShadowHistory.PeriodicRunsAreSpaced` | internal/forgeconnection/access_shadow_periodic.go:267-463 | under any interleaving of enable, disable, manual runs, blocked scans and failed reservations two periodic runs start at least five minutes apart |
| `ShadowHistory.DueScanMovesOn` | internal/forgeconnection/access_shadow_periodic.go:465-525 | in any history every due scan, whether it reserves, is blocked or fails, moves the due time strictly past the clock it sampled, and no later scan comes due within five minutes of it |
| `ShadowService.AccessShadow.ReserveRun` | internal/forgeconnection/access_shadow.go:146-259 | the manual guard chain, orphan recovery and the new row with its snapshot |
| `ShadowService.AccessShadow.RecoverOrphan` | internal/forgeconnection/access_shadow.go:314-394 | an unfinished newest run is ended as interrupted, not before its start, and retention applied |
| `ShadowService.AccessShadow.ApplyRetention` | internal/forgeconnection/access_shadow.go:743-759 | keeps every running row, the newest terminal row and the newest completed row, in order |
| `ShadowService.AccessShadow.ReservePeriodicDue` | internal/forgeconnection/access_shadow_periodic.go:267-463 | a due scan reserves, or only moves the due time when blocked or failing, or does nothing when not due |
| `ShadowService.AccessShadow.FinalizeRun` | internal/forgeconnection/access_shadow.go:477-587 | publishes a complete observation of an unchanged scope, otherwise only ends the run; does nothing for a run that is over |
| `ShadowService.AccessShadow.FinalizationTime` | internal/forgeconnection/access_shadow.go:592-622 | not before the start, and when publishing not before any stored observation |
| `ShadowService.AccessShadow.PublishPairs` | internal/forgeconnection/access_shadow.go:529-541 | upserts each pair and counts present and unknown |
| `ShadowService.AccessShadow.EndRunRow` | internal/forgeconnection/access_shadow.go:707-737 | only a running row with this id changes |
| `ShadowService.AccessShadow.AdvancePeriodicAfterManualComplete` | internal/forgeconnection/access_shadow_periodic.go:527-544 | a completed manual run moves an enabled schedule's due time a full cadence past its start |
| `ShadowService.AccessShadow.Enable` | internal/forgeconnection/access_shadow_periodic.go:25-154 | fenced by revision and blockers; sets the due time a cadence ahead and steps the revision |
| `ShadowService.AccessShadow.Disable` | internal/forgeconnection/access_shadow_periodic.go:159-242 | fenced by revision; clears the due time and steps the revision |
| `ShadowService.AccessShadow.AdvanceAccessIdentityRevision` | internal/forgeidentity/identity.go:19-39 | steps the revision below the maximum and reports whether it did |
| `ShadowService.AccessShadow.CompleteLink` | internal/forgeidentity/ceremony.go:612-640 | links a fresh identity only together with a revision step |
| `ShadowService.AccessShadow.RemoveIdentity` | internal/forgeidentity/identity.go:150-291 | removes an identity with its observations, saturated or not |
| `ShadowService.ValidAccessObservation` | internal/forgeconnection/access_shadow.go:443-475 | the flag-map loop decides exactly the declarative observation contract |
| `ShadowService.ObserveAccess` | internal/forgeconnection/access_shadow.go:409-439 | credential failure, contract violation and cancellation settle to results that publish nothing |
| `JobsTheorems.DeletesIff` | internal/jobs/jobs.go:265-289 | unless the row id is claimed again at the same instant, a completion deletes a row exactly when the row has carried the claim's lock ever since the claim and nothing advanced it in between |
| `JobsTheorems.HeldIff` | internal/jobs/jobs.go:265-289 | in every history, whatever its clock and row ids, a claim matches a row exactly when some claim of that row under its id and instant has been locked since and has reached its generation |
| `JobsTheorems.LosesWorkIff` | internal/jobs/jobs.go:94-119 | in every history, completing a claim loses work committed after it if and only if a row was inserted again in between and a later claim of the same row id at the same instant has reached its generation |
| `JobsTheorems.FreshIDsLoseNothing` | internal/jobs/jobs.go:94-119 | while no row is inserted under an id in use at an earlier time, no completion loses work committed after its claim, whatever the clock does |
| `JobsTheorems.DifferingInstantsLoseNothing` | internal/jobs/jobs.go:94-119 | while no two claims of one row id share an instant, no completion loses work committed after its claim, whatever ids are used again |
| `JobsTheorems.NewWorkOutlivesOldClaim` | internal/jobs/jobs.go:224-327 | after new work commits (an enqueue that advances or inserts the row, or a make-due), completing the older claim deletes nothing and leaves every generation and due time, unless the row id is claimed again at the same instant |
| `JobsTheorems.SupersededFreesOnlyItsLock` | internal/jobs/jobs.go:318-327 | completing or rescheduling a superseded claim frees only the claim's own lock |
| `JobsTheorems.GenerationCountsNewWork` | internal/jobs/jobs.go:94-119 | while a lock is kept, the generation is the claimed one plus the number of new-work commits since |
| `JobsTheorems.AtMostOneCurrent` | internal/jobs/jobs.go:249-264 | two claims of one row id are both current exactly when one is and they name the same generation and instant |
| `JobsTheorems.LaterClaimReplaces` | internal/jobs/jobs.go:224-264 | of two claims taken in turn, the second at another instant, at most one is current at any time |
| `JobsTheorems.CurrentExcludesClaims` | internal/jobs/jobs.go:224-244 | a current claim keeps every other claim and make-due out until its lease ends |
| `JobsTheorems.ClaimableWithinFifteenMinutes` | internal/jobs/jobs.go:291-316 | in every reachable state each job can be claimed fifteen minutes after the latest sampled instant |
| `JobsTheorems.EqualInstantsLoseWork` | internal/jobs/jobs.go:224-289 | a run of enqueues, claims and completions, with a clock that steps back and a reused row id, in which an old claim deletes new work |
| `JobsTheorems.StepKeepsValid` | internal/jobs/jobs.go:94-368 | every statement keeps one row per repository and row ids distinct |
| `Jobs.Store.UpsertReconciliation` | internal/jobs/jobs.go:94-119 | refuses a bad repository or category, else inserts generation 1 or refreshes the row, advancing only when asked |
| `Jobs.Store.ClaimDue` | internal/jobs/jobs.go:165-207 | claims the due rows in order of due time and id, up to the effective limit |
| `Jobs.Store.SelectDue` | internal/jobs/jobs.go:165-190 | lists due rows in order of due time and id, none earlier left out |
| `Jobs.Store.ClaimRepository` | internal/jobs/jobs.go:209-222 | claims one repository's row if and only if it is due and unleased |
| `Jobs.Store.Claim` | internal/jobs/jobs.go:224-244 | takes the lease only while the candidate's generation is still the row's and no lease is active |
| `Jobs.Store.ClaimCurrent` | internal/jobs/jobs.go:249-264 | true exactly for the generation and lock that are stored, while the lease lasts |
| `Jobs.Store.CompleteClaim` | internal/jobs/jobs.go:269-289 | deletes the held row, or releases a superseded lock |
| `Jobs.Store.RescheduleClaim` | internal/jobs/jobs.go:291-316 | frees the held row with the back-off delay, or releases a superseded lock |
| `Jobs.Store.MakeDueNow` | internal/jobs/jobs.go:329-358 | advances and makes due a free row, reports a leased one, or enqueues |
| `Jobs.Store.RemoveReconciliation` | internal/jobs/jobs.go:360-368 | removes one repository's row |
| `Jobs.RetryDelay` | internal/jobs/jobs.go:370-387 | every delay is positive and at most fifteen minutes |
| `StrictJson.StrictAcceptsIff` | internal/companyoidc/strict_json.go:39-124 | the recogniser accepts a token stream if and only if it is the flattening of one value with nesting at most 32, no duplicate member, the root within its limit and other containers within 4096; the value is unique |
| `StrictJson.ProviderAcceptsIff` | internal/forgeidentity/provider_json.go:85-179 | likewise with nesting 4, 128 members, an object root and no alias of a critical key in the root |
| `StrictJson.StrictCheck` | internal/companyoidc/strict_json.go:26-49 | a positive root limit, valid text and an accepted structure |
| `StrictJson.Decoder.ValidateStructure` | internal/companyoidc/strict_json.go:39-49 | one value and then the end of input |
| `StrictJson.Decoder.ValidateValue` | internal/companyoidc/strict_json.go:51-73 | consumes exactly one value within the bounds or fails |
| `StrictJson.Decoder.ValidateObject` | internal/companyoidc/strict_json.go:75-105 | the loop with its growing member set accepts exactly the member lists of the recogniser |
| `StrictJson.Decoder.ValidateArray` | internal/companyoidc/strict_json.go:107-124 | the loop with its counter accepts exactly the element lists of the recogniser |
| `StrictJson.Decoder.ValidateProviderShape` | internal/forgeidentity/provider_json.go:85-102 | an object root within the bounds and then the end of input |
| `StrictJson.Decoder.ValidateProviderObject` | internal/forgeidentity/provider_json.go:107-139 | the member loop with alias and duplicate checks |
| `StrictJson.Decoder.ValidateProviderArray` | internal/forgeidentity/provider_json.go:141-157 | the element loop with its counter |
| `StrictJson.Decoder.ValidateProviderValue` | internal/forgeidentity/provider_json.go:159-179 | consumes exactly one value within the provider bounds or fails |
| `JsonShape.ReadAllIff` | internal/companyoidc/strict_json.go:39-124 | the recursive recogniser reads a whole stream if and only if it flattens a value that fits the bounds |
| `JsonShape.FlattenInjective` | internal/companyoidc/strict_json.go:51-73 | no two values flatten to the same tokens |
| `NumericDate.ParseAcceptsIff` | internal/companyoidc/id_token.go:303-380 | accepts exactly the texts of the number grammar (section 6 of RFC 8259) within 64 bytes, 32 significand digits, exponent magnitude 18 and value 0 to 253402300799, with the exact value; the reading is unique |
| `NumericDate.NegativeAcceptedOnlyForZero` | internal/companyoidc/id_token.go:303-380 | a minus sign is accepted only in front of zero |
| `NumericDate.ParseNumericDate` | internal/companyoidc/id_token.go:303-380 | the index loops compute that parse |
| `NumericDate.ReadExponentDigits` | internal/companyoidc/id_token.go:345-366 | the incremental exponent guard fires if and only if the whole run of digits exceeds the bound |
| `NumericDate.ReadInteger` | internal/companyoidc/id_token.go:315-329 | zero alone or a run without leading zero |
| `NumericDate.ReadFraction` | internal/companyoidc/id_token.go:330-340 | an absent fraction or a non-empty run of digits |
| `NumericDate.ReadExponent` | internal/companyoidc/id_token.go:345-370 | an absent exponent, or marker, optional sign and bounded digits to the end |
| `CheckTheorems.OnlyNewestPersists` | internal/forgeconnection/check.go:223-284 | once another check of the connection is reserved, an older one never persists again |
| `CheckTheorems.CurrentUntilSuperseded` | internal/forgeconnection/check.go:298-381 | after an observed check persists, the evidence stays current until the next reservation, effective edit or reset, through binds and stale workers |
| `CheckTheorems.CurrentEndsWhenSuperseded` | internal/forgeconnection/check.go:67-128 | and such a step ends it at once |
| `CheckTheorems.ObservedCheckMakesCurrent` | internal/forgeconnection/check.go:298-381 | what an observed check stores satisfies the reader's currency predicate |
| `CheckTheorems.PersistNeverFailsRefresh` | internal/forgeconnection/check.go:298-381 | validated observations never hit the refresh failure or a duplicate key |
| `CheckTheorems.BoundIdentitiesNeverChange` | internal/forgeconnection/check.go:298-381 | the service user and organization a connection is bound to never change while it exists |
| `CheckTheorems.StepKeepsValid` | internal/forgeconnection/service.go:91-393 | checks, edits, resets and creation keep the connection, evidence and reservation invariants |
| `ConnectionCheck.Service.ReserveCheck` | internal/forgeconnection/check.go:67-128 | steps the generation and hands out the snapshot, or refuses |
| `ConnectionCheck.Service.PersistCheck` | internal/forgeconnection/check.go:223-284 | stores the result only while every snapshot field is still current, binding identities on the first observed check |
| `ConnectionCheck.Service.ReplacePreview` | internal/forgeconnection/check.go:347-381 | the preview rows are exactly the observed repositories |
| `ConnectionCheck.CheckObservation` | internal/forgeconnection/check.go:170-221 | decides the observation contract: bound ids repeated, distinct repositories, and a code that fits the private count |
| `ConnectionCheck.CheckRepositories` | internal/forgeconnection/check.go:197-213 | every repository well formed, none repeated, and the private count |
| `ConnectionCheck.Service.EditConnection` | internal/forgeconnection/service.go:166-304 | the guards in order; a change steps the revision |
| `ConnectionCheck.Service.ResetConnection` | internal/forgeconnection/service.go:306-393 | only an unbound connection without identities is removed, under all its fences |
| `ConnectionCheck.Service.CreateConnection` | internal/forgeconnection/service.go:91-164 | one connection at a time, under an id never used before |
| `AuthorityHistory.CompanySignInIsBacked` | internal/companyoidc/activation.go:62-121 | in every reachable state an enabled company connection has a matching identity of an eligible Administrator, every company session is that user's, and loading one before it expires succeeds unchanged |
| `AuthorityInvariants.SessionRecheckNeverFails` | internal/auth/company_oidc.go:206-226 | the per-load recheck of a company session never fails |
| `AuthorityInvariants.StepKeepsValid` | internal/auth/account.go:35-402 | every account, invitation, grant, connection and session transaction keeps the invariants that span both packages |
| `AuthorityInvariants.SetAdminKeepsValid` | internal/auth/account.go:35-115 | demotion takes its invitations and company sign-in along, so the invariants survive it |
| `AuthorityInvariants.DisableKeepsValid` | internal/auth/account.go:119-181 | likewise for disabling |
| `AuthorityInvariants.ResetKeepsValid` | internal/auth/account.go:341-402 | likewise for a forced password reset |
| `AuthorityInvariants.RecoverKeepsValid` | internal/auth/password_recovery.go:127-245 | likewise for password recovery |
| `AuthorityHistory.InvitationsStand` | internal/auth/invitations.go:117-203 | in every reachable state a pending invitation's authorizer is an enabled Administrator, active emails are distinct and no user holds one |
| `AuthorityInvariants.AcceptanceRechecks` | internal/auth/invitations.go:738-786 | so acceptance's authorizer, collision, repository and role rechecks never fire: only expiry and the count decide |
| `AuthorityHistory.AcceptanceGrantsWhatWasIssued` | internal/auth/invitations.go:592-701 | an accepted link gives the new user exactly the grants staged when that link was issued and changes no other grant |
| `AuthorityHistory.AcceptedAtMostOnce` | internal/auth/invitations.go:592-701 | a link is accepted at most once |
| `AuthorityHistory.CountCheckIsSetEquality` | internal/auth/invitations.go:782-784 | a pending link is acceptable exactly until it expires or a repository it offered is deleted, and then all it offered is still staged: comparing counts compares the sets |
| `AuthorityHistory.DeletionStrandsALink` | internal/auth/invitations.go:782-784 | a history in which deleting a repository makes an unexpired pending link unacceptable |
| `AuthorityHistory.LinksAlwaysIntact` | internal/auth/invitations.go:205-305 | the staged rows of a pending link are always the roles it offered whose repository still exists |
| `AuthorityHistory.ReplayGivesLiveGrants` | internal/auth/repository_grants.go:629-647 | after any history the live grants are the replayed grant events whose repository still exists |
| `AuthorityHistory.TrailIsTheTable` | internal/auth/invitations.go:908-928 | while no repository is deleted, replaying the grant events from nothing gives exactly the live grants |
| `AuthorityHistory.DeletionLeavesTheTrail` | internal/auth/repository_grants.go:629-647 | a history in which a deleted repository's grant is gone from the table but not from the replayed events |
| `AuthorityHistory.SetRolesIsSymmetricDifference` | internal/auth/repository_grants.go:207-286 | setting roles leaves exactly the desired ones, keeps the attribution of those already held, touches no other grant, and records one event per role that differs |
| `AuthorityService.Service.SetUserAdmin` | internal/auth/account.go:35-115 | the mutation, the final-Administrator check, invalidation and shut-off, or no change at all |
| `AuthorityService.Service.DisableUser` | internal/auth/account.go:119-181 | the same for disabling, with sessions and recovery token removed |
| `AuthorityService.Service.ResetPassword` | internal/auth/account.go:341-402 | forces a change, ends the sessions and shuts company sign-in off when it leans on the user |
| `AuthorityService.Service.CommitPasswordRecovery` | internal/auth/password_recovery.go:127-245 | consumes the token, rewrites the credential and removes the linked identity, or changes nothing |
| `AuthorityService.Service.SecureCompany` | internal/auth/company_oidc.go:149-204 | does nothing for unlinked users, else disables, steps the generation and clears transactions and company sessions, or fails at the maximum |
| `AuthorityService.Service.RemoveIdentity` | internal/auth/company_oidc.go:232-298 | the same on recovery, with the identity removed |
| `AuthorityService.Service.InvalidateAuthorizedBy` | internal/auth/invitations.go:1188-1267 | the user's pending invitations go back for reissue without digest, expiry or authorizer |
| `AuthorityService.Service.CreateInvitation` | internal/auth/invitations.go:117-203 | stages the normalised grants under a new pending row, or refuses |
| `AuthorityService.Service.ReissueInvitation` | internal/auth/invitations.go:205-305 | replaces digest, expiry, authorizer and staged grants of an active row |
| `AuthorityService.Service.ReplaceInvitation` | internal/auth/invitations.go:318-477 | retires one row and issues another with the surviving grants, the email never free in between |
| `AuthorityService.Service.ValidateAcceptance` | internal/auth/invitations.go:738-786 | returns the staged grants exactly when every recheck passes |
| `AuthorityService.Service.CommitAcceptance` | internal/auth/invitations.go:592-701 | creates the user, its grants and their events, redacts the row and removes the staged grants, or changes nothing |
| `AuthorityService.Service.LoadStaged` | internal/auth/invitations.go:788-820 | the staged rows, each once, unless one is unusable |
| `AuthorityService.Service.LoadSurviving` | internal/auth/invitations.go:1006-1037 | the staged rows whose repository still exists, each once |
| `AuthorityService.Service.RepositoriesExist` | internal/auth/invitations.go:1092-1104 | skipping repeats of the previous id loses no check |
| `AuthorityService.NormalizeGrants` | internal/auth/invitations.go:1065-1090 | accepts exactly lists of valid repository roles, and keeps each once |
| `AuthorityService.NormalizeRoles` | internal/auth/repository_grants.go:288-307 | accepts exactly lists whose non-blank roles are repository roles |
| `AuthorityService.Service.SetRoles` | internal/auth/repository_grants.go:207-286 | replaces one user's roles on one repository |
| `ConvergenceTheorems.ConvergedPublishesOpenAtRead` | internal/app/enforcement_activation.go:306-348 | however webhook deliveries fall between the statements of the synchronisation and before the read, the heads of a converged run are exactly those of the pull requests whose last word (a delivery after the closing, else the last upsert of a listed number) is open on a managed branch, each once |
| `ConvergenceTheorems.RunPublishesOpenAtRead` | internal/app/enforcement_activation.go:306-348 | the same for a whole run of the method with deliveries between its synchronisation and its read |
| `ConvergenceTheorems.ConvergedPublishesExactly` | internal/app/enforcement_activation.go:306-348 | where nobody else writes, the heads of a converged run are exactly those of listed, open pull requests on managed branches, each once |
| `ConvergenceTheorems.OpenAtRead` | internal/app/open_pr_sync.go:106-119 | a pull request is open at the read if and only if the last word on it is open, and it is then cached as that word says |
| `ConvergenceTheorems.UntouchedIsListed` | internal/app/open_pr_sync.go:106-119 | where no delivery touches a number, the last word on it is the last entry the forge listed |
| `ConvergenceTheorems.Reconciler.Deliver` | internal/webhook/pull_request.go:113-153 | deliveries upsert one normalised row each, in order, or none when rejected |
| `ConvergenceTheorems.SyncedOpenRows` | internal/app/open_pr_sync.go:81-127 | after a full synchronisation with no other writer a pull request is open in the cache exactly when the forge's last entry for it normalises to open; other repositories are untouched |
| `ConvergenceTheorems.CacheEqualsListingIff` | internal/app/open_pr_sync.go:81-127 | with no other writer the cache's open rows equal the forge list if and only if the listing is clean: all entries open, and none contradicting another of the same number |
| `ConvergenceTheorems.RepeatedNumberIsMerged` | internal/app/open_pr_sync.go:106-117 | a listing that repeats a number with another head synchronises, and the cache then differs from it |
| `ConvergenceTheorems.GroupingPartitions` | internal/app/freeze_recompute.go:618-634 | grouping by head is a partition that preserves every pull request with a head |
| `ConvergenceTheorems.Reconciler.ReconcileCurrentPolicy` | internal/app/enforcement_activation.go:306-348 | reads the cache as the synchronisation and the deliveries after it left it and publishes a prefix of the heads in order; on success all of them, with attempted = posted = number of heads |
| `ConvergenceTheorems.Reconciler.PublishOpen` | internal/app/enforcement_activation.go:328-347 | the loop over groups, once per head |
| `PullRequestCache.PublishGroups` | internal/app/enforcement_activation.go:328-347 | stops at the first group that fails, with truthful counts |
| `PullRequestCache.PullRequestsByHead` | internal/app/freeze_recompute.go:618-634 | the loop with its index map builds the groups in order of first appearance |
| `PullRequestCache.Cacher.Upsert` | internal/pullrequest/store.go:47-71 | overwrites one row with the normalised pull request, or rejects it |
| `PullRequestCache.Cacher.MarkAbsentOpenClosed` | internal/pullrequest/store.go:148-185 | closes exactly the open rows that are not listed |
| `PullRequestCache.Cacher.ListOpenByTargetBranch` | internal/pullrequest/store.go:116-146 | one branch's open rows, by number |
| `PullRequestCache.Cacher.CacheListing` | internal/app/open_pr_sync.go:106-117 | caches the listing in order up to the first invalid entry |
| `PullRequestCache.Cacher.SyncRepository` | internal/app/open_pr_sync.go:81-127 | caches, then closes the absent; nothing is closed after a rejected entry |
| `PullRequestCache.Cacher.OpenManagedBranchPullRequests` | internal/app/enforcement_activation.go:452-473 | every open row on a managed branch, each once |

## Left out

- ShadowService.AccessShadow.CompleteLink: the link ceremony's own checks (state, browser, configuration, collision) are not modelled, only the identity insert with its revision step.
- ShadowService.AccessShadow.ReserveRun: a connection reset, which cascades to its runs, is not a step of the shadow histories; they cover one connection's life.
- ShadowService.AccessShadow.ReservePeriodicDue: the many places a scan can fail are two faults, before and after the savepoint.
- ShadowReader.LoadObservations: unparsable timestamps are not modelled; times are numbers.
- NumericDate.ParseNumericDate: exact rationals are reals and bytes are characters.
- StrictJson.StrictCheck: the tokenizer is foreign; its tokens, whether it ended cleanly and whether the text is valid UTF-8 are inputs.
- StrictJson.Decoder.ValidateProviderObject: name folding is a parameter; the code's comment speaks of ASCII while it calls Unicode folding, and the theorem holds for any folding.
- BindingDerivation.DeriveRepositoryBindings: forge names arrive trimmed and lower-cased and base URLs canonical; malformed-row errors of the loaders are left out.
- ConnectionCheck.Service.EditConnection: URL, name and token normalisation are inputs that say whether the form is acceptable.
- PullRequestCache.Cacher.Upsert: the updated-at column is left out, and trimming and lower-casing are parameters.
- ConvergenceTheorems.Reconciler.ReconcileCurrentPolicy: flipping the repository to active and refreshing its claim before the first publication is left out; what meets each group is an input; the branches are read at one instant.
- AuthorityService.Service.EditConnection: revision or generation at its maximum is modelled as a refusal; the code lets the column's check fail the transaction.
- AuthorityService.Service.CreateInvitation: email and display-name formats are an input, and the normalised grants are not sorted, which nothing but insertion order can see.
- AuthorityService.Service.CommitAcceptance: the check before hashing and the one inside the transaction are one; the order of the new grants is whatever the query returns.
- AuthorityService.Service.CommitLink: domain lists compare as stored, and the test sign-in transactions of company sign-in are represented only by the evidence they leave.
- Audit events other than grant and binding events, and every event's JSON.
- Lost commit acknowledgements, request cancellation and shutdown.
- Clean-up of expired one-time transactions, which are refused on expiry anyway.
- `parseAudience`, `verifiedIDTokenClaims.valid` and `buildAccessShadowPairRows`: single loops and conjunctions without a deeper property.
- HTTP, web handlers, cryptography, URL and address parsing, SQL text, list and page queries.
- Freeze, schedule and thaw-exception transitions, policy evaluation, status publication and repository setup.
