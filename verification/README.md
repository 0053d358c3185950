# Verification of the Siyadah orchestrator's core

This project models, in Dafny, the parts of the orchestrator whose correctness depends on several
functions or several processes at once, and proves what they promise for every input, every run or
every reachable state.

**The OAuth token vault.** `VaultModel.dfy` (module `Vault`) is a state machine. Each committed transaction,
Redis command, provider call and Activepieces call is one step; callbacks, the replicas of the refresh worker
and webhook deliveries interleave freely, under a global clock, with crashes anywhere. Every choice of the
environment is part of the step: replies, failures, random bytes, commits that abort, Activepieces calls that
take effect and still report a failure. `VaultFrames` states what each kind of step leaves alone;
`VaultSecrets`, `VaultLease`, `VaultStatus`, `VaultCallbacks`, `VaultSagas`, `VaultLinks` and `VaultSync` hold
one invariant each, and its consequences over whole runs. `VaultTokens` follows every access token from the
provider to Activepieces, `VaultConnections` the connection of a failed or compensated callback,
`VaultHandover` a row that is linked while a worker is on it, `VaultEpochs` a row from one rotation to the
next, `VaultDue` when it falls due, `VaultRecords` what sagas, nonces and webhook events are good for.
`VaultPasses` states what lets a worker go on, `VaultSuccess` that an authorization, a refresh and a retry
without a fault reach their ends, and `VaultScenarios` gives runs from the empty vault to the states where a
promise fails. `TokenTable` is the table as an object updated statement by statement, with a uniqueness check
after each statement and a rollback; its methods are proved to do what the steps do.

**Envelope encryption.** `Envelope` treats the AEAD as ideal (RFC 5116, section 2): a ciphertext is the
record of how it was sealed, and opens exactly under that key, IV and associated data. The bytes of the
associated data, the versions and the length checks are the code's own.

**The state token.** `Base64Url`, `Json` and `StateToken` are the printer and the two parsers of the signed
state: RFC 4648 sections 3.2 and 5 with the standard library's lenient scan, RFC 8259 section 7 strings with
surrogate pairs (`JsonGrammar` is the grammar of what is read), and the checks in their order. `Pkce` is RFC
7636 section 4. HMAC-SHA256 and SHA-256 are uninterpreted functions. `NonceStore` is the single-use store of
the nonces as an object, over the key map of the vault's own steps.

**The flow compiler and its walkers.** `FlowTree` is the linked document and what running it does, for any
oracle that decides branches and loop counts; `FlowCompiler` is the back-to-front chain builder as a
function, `FlowBuilder` the same with the shared counter and the loops, `FlowSplice` the router and loop
endpoints with the in-place splice on linked objects, `FlowValidate` the pre-flight check,
`FlowNumbering` the step names and the build summary. `FlowReadBack` compares the built document with what was
asked for, `FlowComplaint` locates what the pre-flight check complains of. `FlowWalkers`, `PieceValidator` and
`FlowGraph` are the independent walkers; `FlowDiagnosis` and `PieceReport` tell their rows and errors from the
document alone. `GoldenBuild` is the build pipeline against a nondeterministic platform.

**Two smaller members.** `Dahae` is the score arithmetic over the reals; `Registry` is the file registry and
its indexes.

## What the code does that its documentation does not say

Each is a lemma with the exact condition under which it happens.

- The unique constraint covers every status (models.py:389-392), so an account can be authorized twice and
  not a third time: soft-revoking the second row would duplicate the revoked first one
  (`VaultStatus.InsertCommitsIff`, `VaultStatus.ThirdAuthorizationAborts`). The same holds for a webhook
  revocation (`VaultStatus.RevocationCommitsIff`), and since the event id is recorded first, the retry is
  swallowed (`VaultStatus.AbortedRevocationIsLost`). And it holds for the worker's own marks: after a terminal
  provider answer (oauth_routes.py:672-682) or a failed decryption, the row becomes REVOKED or CORRUPTED only
  if no sibling is; otherwise it stays ACTIVE and due, and is polled again (`VaultStatus.MarkCommitsIff`,
  `VaultStatus.MarkOutcome`).
- Exclusion of the refresh workers and the refresh counter rest on the lease not being outlived. Without that
  a held row can be claimed again (`VaultLease.ReclaimableExactlyOnOverrun`), and a rotation is counted exactly
  when the count it read is still the row's (`VaultLease.RotationCountedIff`); a run in which two rotations
  count as one is given (`VaultScenarios.OverlapIsReached`).
- When the provider returns no new refresh token, the old ciphertext stays under a replaced key. The next full
  refresh cannot open it; the row ends CORRUPTED if and only if no row of its account is, and else stays ACTIVE
  (`VaultSecrets.StaleRowEndsCorruptedIff`).
- A COMPLETED saga does not stay so: it stops being COMPLETED exactly when a provider-side denial names it,
  which needs no valid signature (oauth_routes.py:1295-1307), or when a callback on the same state token commits
  a failure mark (`VaultSagas.StaysCompletedIff`). A late duplicate callback suffices, and the winner's row stays
  (`VaultScenarios.RelabelIsReached`).
- A row that is linked and not pending need not have its token at Activepieces. A worker that read the row
  before it was linked has nowhere to push to, and still clears the flag. If it rotates before finalize, the
  row is linked to a connection holding the exchanged token: at the moment of finalize, in sync exactly if no
  rotation was committed before or it returned the same token (`VaultHandover.HandedOverInSyncIff`,
  `VaultScenarios.OldTokenIsReached`). If it rotates after finalize, the row is in sync at that moment and out of
  sync after the completed pass (`VaultScenarios.LateRotationIsReached`). Over both: a completed pass that leaves
  its row linked and not pending has left the row's token at Activepieces exactly if it had read the link or the
  token is the exchanged one (`VaultHandover.CompletedPassInSyncIff`).
- A worker that has read the link leaves the same when it rotates and then crashes before its push, or when the
  flag write after a failed push aborts (oauth_routes.py:733-793): the row keeps its clear flag and is not due
  again until the next full refresh (`VaultScenarios.CrashIsReached`). A row is unsettled exactly when a rotation
  of it has committed and no pass that had read its link has committed a flag write since
  (`VaultEpochs.UnsettledIff`); without that, not pending means in sync (`VaultEpochs.NotPendingNotOpen`), and
  with it the row is in sync exactly if the connection held the token right after the rotation or an upsert has
  taken effect since (`VaultEpochs.InSyncSinceIff`).
- Compensation does not always clear Activepieces (oauth_routes.py:1421-1423, 1470-1473): the connection remains
  exactly when the create call took effect and reported a failure, or the undo did not take effect
  (`VaultConnections.ConnectionRemainsIff`).
- The step_N sort of the build summary (main.py:1152-1164, "execution-friendly") changes nothing and lists a flat
  chain backwards (`FlowNumbering.SortChangesNothing`, `FlowNumbering.SummaryIsReversed`).
- The graph view leaves out loop bodies (`FlowGraph.DrawnCompletelyIff`).
- The PKCE comment at siyadah_oauth_state.py:22-24 says 64 random bytes; the code draws 48, which is what
  gives 64 characters (`Pkce.GeneratedPair`).
- The strict base64 decoder's alphabet check also lets a final line feed through, which decodes exactly on
  whole groups (`Base64Url.TrailingLineFeed`), and different texts can decode alike
  (`Base64Url.OnlyCanonicalIsPrinted`).
- The pre-flight check passes steps the catalogue then refuses, and refuses steps without an action that would
  build where no schema is loaded (`FlowValidate.PassesIffBuilds`).

## Model

| member | source | states |
|---|---|---|
| `Envelope.SplitAtLastBar` | oauth_routes.py:223-238 | a byte string has at most one reading as head, bar and bar-free tail |
| `Envelope.RowAadInjective` | oauth_routes.py:223 | tenant, provider and row id are recoverable from the row's associated data for every tenant, bars included |
| `Envelope.AadTexts` | oauth_routes.py:223-238 | the parts are joined by bars, and the slot names are the texts `access` and `refresh` |
| `Envelope.PlaceAadInjective` | oauth_routes.py:223-238 | so are they together with the slot |
| `Envelope.BuildAadInjective` | siyadah_crypto.py:241-247 | version and caller data are recoverable from the full associated data |
| `Envelope.BuildAadIs` | siyadah_crypto.py:241-247 | two bytes of version, most significant first, a bar, the caller's data; refused exactly outside two bytes |
| `Envelope.OpensOnlyWhereSealed` | siyadah_crypto.py:198-240 | a token ciphertext opens if and only if key, row, slot and version are those it was sealed for, and then gives the plaintext |
| `Envelope.RefusedFor` | siyadah_crypto.py:178-240 | refused first for the version, then for the length of the key, and only then by the cipher |
| `Envelope.UnwrapsOnlyForItsRow` | siyadah_crypto.py:166-196 | a wrapped key unwraps if and only if master key, row and version are its own |
| `VaultFrames.WorkOwnRow` | oauth_routes.py:569-818 | of all worker steps only a committed rotation changes a row's secrets, only the flag step its flag, only the release its lease |
| `VaultFrames.FrontRow` | oauth_routes.py:204-292 | callback steps insert one sealed row and otherwise keep every row's secrets and lease; only finalize writes the link |
| `VaultSecrets.SealingOpens` | oauth_routes.py:223-240 | what was sealed for a row opens in its slots and gives the provider's tokens back |
| `VaultSecrets.RotatedOpens` | oauth_routes.py:705-754 | a rotated row opens its access slot always, its refresh slot exactly when the provider sent a new refresh token |
| `VaultSecrets.SecretsNext` | oauth_routes.py:569-939 | every step of every actor keeps: each row's key unwraps under its own data and opens the access slot, and the refresh slot unless stale |
| `VaultSecrets.EveryRowOpens` | oauth_routes.py:223-240 | hence every stored row opens in every reachable state, whatever the timing |
| `VaultSecrets.StaleReadingIsMarked` | oauth_routes.py:638-671 | in every run a full refresh asks for CORRUPTED or goes on to the provider exactly as the row it read is stale or not |
| `VaultSecrets.StaleRowEndsCorruptedIff` | oauth_routes.py:638-671 | in every run, with any steps of others between a failed decryption and its mark: the row read was stale, and it ends CORRUPTED if and only if no sibling is CORRUPTED when the mark commits, else no row changes |
| `VaultDue.RotatedDue` | oauth_routes.py:726-754 | a rotated row is due exactly from five minutes before the new token's end on, and never without an end |
| `VaultDue.InsertedDue` | oauth_routes.py:242-277 | the same for the row an exchange stores |
| `VaultDue.PostponedDue` | oauth_routes.py:616-626 | a row without a refresh token is due a year later |
| `VaultDue.RefreshTimeStays` | oauth_routes.py:616-754 | in every run a row's refresh time stays until the next committed rotation or postponement of it |
| `VaultDue.RotatedRowRests` | oauth_routes.py:947-1003 | in every timely run the next claim that puts a rotated row on the full path reads the clock no earlier than its lifetime less five minutes after the rotation |
| `VaultPasses.LockIff` | oauth_routes.py:628-632 | a task goes on exactly when the Redis key is absent or expired, and sets it for 300 seconds |
| `VaultPasses.LockExcludes` | oauth_routes.py:628-632 | in every run, between two tasks that set one row's key it was deleted or 300 seconds passed |
| `VaultPasses.KeyIsGivenBack` | oauth_routes.py:628-818 | in every run, whatever is raised on the way, a task that has set the key goes through its deletion before it releases its lease |
| `VaultPasses.UnlocksWhatItLocked` | oauth_routes.py:628-818 | and only a task that has set the key gets to the deletion |
| `VaultPasses.EndsByRelease` | oauth_routes.py:1018-1033 | a task ends by the step that releases its lease, which changes nothing else of the row |
| `VaultPasses.OnlyActiveIsRefreshed` | oauth_routes.py:606-615 | in every run a provider is asked only about a row that was ACTIVE when the task read it |
| `VaultPasses.AnswerLeads` | oauth_routes.py:667-700 | a refusal leads to REVOKED when terminal, to a retry when transient |
| `VaultPasses.TerminalEndsRevokedIff` | oauth_routes.py:667-687 | in every run, with any steps of others in between, the row ends REVOKED if and only if no sibling is when the mark commits |
| `VaultSuccess.RefreshSucceeds` | oauth_routes.py:569-818 | from every world with the row due, free and opening: a pass without a fault ends with the new tokens sealed, counted, delivered, due in time, lock and lease gone, all else as before |
| `VaultSuccess.RetrySucceeds` | oauth_routes.py:821-939 | from every world with the flag set and the row free: a retry without a fault delivers the stored token and clears the flag, secrets and count as before |
| `VaultSuccess.AuthorizationSucceeds` | oauth_routes.py:1282-1504 | from every world with room in the account: initiation to finalize without a fault stores, links and delivers the tokens, revokes the previous row, closes the saga and spends the nonce |
| `VaultLease.WorkKeepsLease` | oauth_routes.py:607-632 | a live task never released its lease, and one working from its reading has not rotated |
| `VaultLease.ClaimTakesFree` | oauth_routes.py:947-1003 | a claim takes no row held by a task within its lease |
| `VaultLease.LeaseNext` | oauth_routes.py:947-1099 | every step keeps exclusion, lease ownership, current readings and counted rotations while no live task outlives its lease |
| `VaultLease.TimelyRunsExclude` | oauth_routes.py:947-1033 | in every such run of any number of replicas, with crashes, no two live tasks hold one token and refresh_count is the number of committed rotations |
| `VaultLease.ReclaimableExactlyOnOverrun` | oauth_routes.py:967-982 | a held row can be claimed again if and only if it still needs work and its task outlived the lease |
| `VaultLease.RotationCountedIff` | oauth_routes.py:732-754 | a committed rotation is counted if and only if the count its task read is still the row's |
| `VaultLease.OverlapLosesAnUpdate` | oauth_routes.py:732-754 | two rotations by tasks that read the same count are counted once |
| `VaultStatus.StatusNext` | oauth_routes.py:248-291 | every step keeps the unique constraint, and no row that left ACTIVE returns to it |
| `VaultStatus.OwnStatus` | oauth_routes.py:732-754 | a rotation that commits after a revocation leaves the status alone |
| `VaultStatus.AtMostOneActive` | models.py:386-392 | in every run a tenant's account has at most one ACTIVE row |
| `VaultStatus.NeverActiveAgain` | oauth_webhooks.py:149-180 | from any point of any run on, a row that is not ACTIVE never is again, and a deleted one does not come back |
| `VaultStatus.GoneStaysGone` | oauth_routes.py:222 | no step brings back a deleted row |
| `VaultStatus.InsertCommitsIff` | oauth_routes.py:248-291 | storing an exchange commits if and only if the account does not have an ACTIVE and a REVOKED row |
| `VaultStatus.InsertWithoutAccount` | oauth_routes.py:251 | the same for exchanges without an account name, which revoke nothing |
| `VaultStatus.ThirdAuthorizationAborts` | models.py:386-392 | from an empty table: two authorizations commit, the third and the webhook revocation abort |
| `VaultStatus.RevocationCommitsIff` | oauth_webhooks.py:149-180 | a revocation commits if and only if no targeted row has a revoked sibling |
| `VaultStatus.MarkCommitsIff` | oauth_routes.py:655-687 | giving a row a status commits if and only if no other row of its account has it |
| `VaultStatus.MarkOutcome` | oauth_routes.py:655-687 | a worker's mark sets the status exactly then, and otherwise leaves the row as it was |
| `VaultStatus.CommittedRevocationIsComplete` | oauth_webhooks.py:384-415 | it then leaves no ACTIVE row of the account and changes nothing else |
| `VaultStatus.AbortedRevocationIsLost` | oauth_webhooks.py:231-325 | one that aborts revokes nothing, and a retry inside the dedupe window schedules nothing |
| `VaultCallbacks.AtMostOneWinner` | siyadah_oauth_state.py:345-365 | of all callbacks on one state token at most one passes the nonce consume |
| `VaultCallbacks.LosersLeaveNoTrace` | oauth_routes.py:1331-1504 | every vault row and every connection stems from a winner, at most one of each per token |
| `VaultCallbacks.OnlyCompensationDeletes` | oauth_routes.py:396-449 | a row disappears only by its own winner's committed compensation |
| `VaultCallbacks.WinnerOutcome` | oauth_routes.py:1122-1168 | a finished winner's row is in place exactly when finalize committed, linked to an existing connection; after compensation no row links to its connection; a failed winner owns neither row nor connection |
| `VaultSagas.CompletedLeavesIff` | oauth_routes.py:168-201 | a step ends COMPLETED if and only if it is a denial naming the saga or a failure mark by a callback on its state token |
| `VaultSagas.NeverCompletedAgain` | oauth_routes.py:1122-1168 | a finished saga that is not COMPLETED never is again |
| `VaultSagas.SagaNext` | oauth_routes.py:1122-1168 | every step keeps: a COMPLETED saga has a callback that finished |
| `VaultSagas.StaysCompletedIff` | oauth_routes.py:1295-1307 | over any stretch of any run a COMPLETED saga stays so if and only if neither kind of event relabels it |
| `VaultSagas.LoserRelabelsCompletedSaga` | oauth_routes.py:168-201 | a late loser turns a COMPLETED saga FAILED while row and link stay |
| `VaultRecords.SagaTellsWinner` | oauth_routes.py:168-292 | in every run a saga's token and connection columns are its winner's, and its status too unless something relabelled it |
| `VaultRecords.NoLateArrival` | oauth_routes.py:1331-1344 | in every run no callback is let in once a row has been stored on its state token |
| `VaultRecords.RowsStemFromInitiation` | oauth_routes.py:1176-1230 | in every run a row has the tenant and provider of the initiation that drew its callback's nonce |
| `VaultRecords.WinsIff` | siyadah_oauth_state.py:329-365 | in every run a callback wins if and only if it asks within 300 seconds of the registration, first, and for the tenant that registered |
| `VaultRecords.DeliveryIff` | oauth_webhooks.py:231-325 | a delivery is acted on exactly when it names an account and its event id was not seen within a day |
| `VaultRecords.EventActedOnOnce` | oauth_webhooks.py:231-325 | in every run two deliveries of one event id that are acted on lie a day apart |
| `VaultConnections.OnlyUndoRemoves` | oauth_routes.py:1470-1504 | a connection disappears only by an undo of the callback that created it |
| `VaultConnections.ConnectionRemainsIff` | oauth_routes.py:1421-1504 | after compensation the connection remains if and only if the create call took effect unreported or the undo did not take effect |
| `VaultConnections.FailedLeavesNothing` | oauth_routes.py:1345-1392 | a callback that stored no row owns no row and no connection |
| `VaultLinks.LinkedOwner` | oauth_routes.py:1122-1168 | a linked row's connection belongs to the finished callback that stored the row |
| `VaultLinks.LinksNext` | oauth_routes.py:607-619 | every step keeps: a link a task has read is that of a finished callback |
| `VaultSync.SyncNext` | oauth_routes.py:756-793 | every step keeps the agreement between link, flag, row and Activepieces |
| `VaultSync.NotPendingMeansSynced` | oauth_routes.py:756-793 | in every timely run: linked, settled and not pending implies Activepieces holds the plaintext of the access ciphertext |
| `VaultSync.CompletedPassSettles` | oauth_routes.py:779-793 | a pass that read the link and committed its flag leaves the row settled, pending exactly when its push was not confirmed |
| `VaultSync.ApOnlyStep` | oauth_routes.py:821-939 | an AP-only step asks no provider and changes no ciphertext, key, count or status |
| `VaultSync.ApOnlyPassChangesNoSecret` | oauth_routes.py:821-939 | the same, status included, for any step of an AP-only task at any point of any run |
| `VaultSync.UnlinkedReadLeavesOldToken` | oauth_routes.py:756-793 | a pass that read the row before it was linked, then finalize: row linked with the new token, flag clear, connection as before and so holding the token of the settled row |
| `VaultHandover.HandedOverInSyncIff` | oauth_routes.py:1122-1168 | in every timely run finalize links the row to a connection that at that moment holds its token if and only if no rotation came before, or it returned the exchanged token |
| `VaultHandover.UntoldNext` | oauth_routes.py:756-793 | every step keeps: before finalize, and after it while a task lives that read the row unlinked, the connection holds the exchanged token |
| `VaultHandover.CompletedPassInSyncIff` | oauth_routes.py:756-793 | in every timely run a committed flag write that leaves its row linked and not pending leaves the row's token at Activepieces if and only if the pass had read the link or the token is the exchanged one |
| `VaultHandover.UntouchedNext` | oauth_routes.py:756-793 | every step keeps: an unlinked row is settled exactly until its first rotation |
| `VaultEpochs.UnsettledIff` | oauth_routes.py:733-793 | in every run a row is unsettled if and only if a rotation of it has committed and no pass that had read its link has committed a flag write since |
| `VaultEpochs.NotPendingNotOpen` | oauth_routes.py:756-793 | in every timely run a linked, not pending row without such a rotation has the plaintext of its access ciphertext at Activepieces |
| `VaultEpochs.InSyncSinceIff` | oauth_routes.py:756-793 | in every timely run, over any stretch after the create call without a rotation, the connection holds the row's token if and only if it did at the start or an upsert has taken effect since |
| `VaultTokens.IssuedNext` | oauth_routes.py:705-793 | every step keeps: rows, tasks, callbacks and connections hold only access tokens issued for their own authorization |
| `VaultTokens.OnlyOwnTokens` | oauth_routes.py:756-793 | in every run a connection holds a token some earlier event issued to the authorization that created it, the one its linked row stems from |
| `VaultScenarios.OverlapIsReached` | oauth_routes.py:947-1033 | a run in which an outlived lease leads to two rotations and a count of one |
| `VaultScenarios.OldTokenIsReached` | oauth_routes.py:756-793 | a timely run to a linked, not pending row whose connection holds the older token |
| `VaultScenarios.LateRotationIsReached` | oauth_routes.py:756-793 | a timely run, in sync at the finalize, whose completed pass leaves a linked, not pending row with the older token outside |
| `VaultScenarios.CrashIsReached` | oauth_routes.py:733-793 | a timely run in which a crash after the rotation leaves a linked row, its flag clear, with the older token outside |
| `VaultScenarios.RelabelIsReached` | oauth_routes.py:168-201 | a timely run to a COMPLETED saga and on to FAILED, row linked and ACTIVE |
| `TokenTable.Table.ClaimDueTokens` | oauth_routes.py:947-1015 | stamps the lease on exactly the selected rows and returns the batch split by what is due |
| `TokenTable.Table.RevokeTeam` | oauth_webhooks.py:149-180 | row by row: commits exactly when the set-wise revocation is unique, returns the selected ids, and rolls back otherwise |
| `TokenTable.Table.PersistTokens` | oauth_routes.py:248-291 | soft-revoke, check, insert, check: commits exactly when the result is unique, and rolls back otherwise |
| `TokenTable.Summarize` | oauth_routes.py:1058-1105 | every claimed token is run on its path and its outcome tallied once |
| `TokenTable.SiblingIsOld` | oauth_webhooks.py:157-165 | a row being revoked can only clash with a sibling revoked before the webhook came |
| `TokenTable.InsertStatements` | oauth_routes.py:248-281 | the two statements of an insert breach the constraint exactly when the whole does |
| `TokenTable.DueSplits` | oauth_routes.py:1003-1015 | the two lists of a claim together are its batch |
| `TokenTable.DueOnly` | oauth_routes.py:1003-1015 | a token is on the full list exactly when it is due, else on the retry list |
| `TokenTable.BatchIsClaim` | oauth_routes.py:947-1015 | a claimed batch is a claim step with the same rows, each task on the list and with the lease its row calls for |
| `Base64Url.SextetsRoundTrip` | siyadah_oauth_state.py:118-120 | grouping bytes by six bits and back is the identity |
| `Base64Url.EncodeIs` | siyadah_oauth_state.py:118-120 | the printed text has length ceil(4n/3), only alphabet characters and no dot |
| `Base64Url.EncodesGroup` | siyadah_oauth_state.py:118-120 | three bytes are four characters of the RFC 4648 table, by their common 24-bit value |
| `Base64Url.EncodesLastByte` | siyadah_oauth_state.py:118-120 | a last byte is two characters, padded with zero bits |
| `Base64Url.EncodesLastTwo` | siyadah_oauth_state.py:118-120 | two last bytes are three characters, padded with zero bits |
| `Base64Url.AlphabetIs` | siyadah_oauth_state.py:118-120 | the characters are those of Table 2 of RFC 4648 |
| `Base64Url.DecodesIff` | siyadah_oauth_state.py:123-132 | the strict decoder accepts exactly the texts over the table without an incomplete group, and whole groups with one line feed behind them |
| `Base64Url.RoundTrip` | siyadah_oauth_state.py:118-132 | both decoders give every byte string back |
| `Base64Url.IncompleteRefused` | siyadah_oauth_state.py:123-132 | a text of length 1 modulo 4 over the alphabet is refused |
| `Base64Url.OnlyCanonicalIsPrinted` | siyadah_oauth_state.py:123-132 | of the texts that decode, printing the bytes gives the same text exactly when the dropped bits are zero |
| `Base64Url.TrailingLineFeed` | siyadah_oauth_state.py:115-132 | a text with a final line feed decodes if and only if it consists of whole groups |
| `Pkce.GeneratedPair` | siyadah_oauth_state.py:380-394 | 64 and 43 unreserved characters, and the pair verifies |
| `Pkce.AcceptsOnlyCollisions` | siyadah_oauth_state.py:397-407 | another verifier passes if and only if its digest collides |
| `Pkce.VerifiersDiffer` | siyadah_oauth_state.py:391 | different random bytes give different verifiers |
| `Decimal.DigitsRead` | main.py:1174 | decimal notation reads back to its number and has no leading zero |
| `Json.CharRead` | siyadah_oauth_state.py:218-220 | each escaped character, surrogate pairs included, parses back to itself |
| `Json.ObjectRead` | siyadah_oauth_state.py:218-220 | printing any members and parsing the text gives the object they denote |
| `Json.ObjectPrintable` | siyadah_oauth_state.py:218-220 | the printed text is printable ASCII |
| `JsonGrammar.ParsesIff` | siyadah_oauth_state.py:268-277 | the parser reads exactly the texts of the grammar of RFC 8259 for a flat object of strings and integers, each to the object it denotes |
| `StateToken.VerifySigned` | siyadah_oauth_state.py:227-300 | the exact answer on a signed token for every reader key, expected tenant and time |
| `StateToken.AcceptedIff` | siyadah_oauth_state.py:227-305 | any text, whoever made it, is accepted with these claims if and only if it is two words around one dot, the second the code of the first, the first an object with the five claims for that tenant, not expired |
| `StateToken.RefusedBecause` | siyadah_oauth_state.py:227-305 | and which error any other text gets |
| `StateToken.IssuedRoundTrip` | siyadah_oauth_state.py:186-300 | an issued token verifies to the same claims if and only if the time is before issue plus ttl, else it is expired |
| `StateToken.TokenShape` | siyadah_oauth_state.py:222-224 | an issued token has exactly one dot and otherwise alphabet characters; the nonce has 32 |
| `StateToken.AcceptedHasOneDot` | siyadah_oauth_state.py:250-256 | no text without exactly one dot is accepted |
| `StateToken.PayloadInjective` | siyadah_oauth_state.py:211-220 | the signed bytes determine the claims |
| `StateToken.TokensDiffer` | siyadah_oauth_state.py:211-224 | two tokens are equal texts if and only if all their claims are |
| `StateToken.DecodersAgree` | oauth_routes.py:295-310 | on every authentic token the unverified decoder reads the same object |
| `StateToken.AttributedIff` | oauth_routes.py:295-311 | the unverified look takes the text up to the first dot, which must be there, and two claims of the object in it |
| `StateToken.CallbackAcceptsIff` | oauth_routes.py:1317-1329 | the callback accepts exactly the tokens that verify against the tenant they name, with that tenant and nonce, and never fails on a tenant mismatch |
| `StateToken.SignatureFixesClaims` | siyadah_oauth_state.py:262-268 | under a collision-free code, a reused signature carries the issued claims and no others |
| `NonceStore.Store.Register` | siyadah_oauth_state.py:329-343 | binds a nonce to its tenant unless it is present; the exact error otherwise |
| `NonceStore.Store.Consume` | siyadah_oauth_state.py:345-365 | deletes the nonce whoever asks, and succeeds exactly for its tenant in time |
| `NonceStore.Store.ConsumeAll` | siyadah_oauth_state.py:345-365 | of any number of attempts only the first can succeed, exactly when the nonce is present and it is its tenant's |
| `NonceStore.Store.RegisterTwice` | siyadah_oauth_state.py:329-343 | a present nonce cannot be bound to another tenant |
| `NonceStore.Store.RegisterThenConsume` | siyadah_oauth_state.py:329-365 | a registered nonce is good for its tenant before its time to live is over; then and after any attempt it is gone |
| `NonceStore.Store.ConsumeAsStep` | oauth_routes.py:1347-1355 | the vault's consume step is this method: same keys left, and the callback wins exactly when it succeeds |
| `FlowTree.FirstMatchIs` | main.py:937-956 | the branch chosen by execute-first-match, told without recursion |
| `FlowTree.RangeOnce` | main.py:1171-1174 | step_c … step_{c+n-1} are pairwise different |
| `FlowCompiler.ConditionsReadBack` | main.py:1006-1021 | compiled branches keep every condition, and mark only text containment |
| `FlowCompiler.ChainMeaning` | main.py:1335-1365 | running the compiled chain gives the trace of running the specifications in order, for every oracle and history |
| `FlowCompiler.StepMeaning` | main.py:1167-1332 | a compiled step does what its specification says and is followed by the step it was given |
| `FlowCompiler.RouterRunsFirstMatch` | main.py:937-956 | a first-match router runs exactly the actions of the matching branch, then goes on |
| `FlowReadBack.ChainCarries` | main.py:1167-1365 | the built chain carries exactly what the specifications give, defaults literally, at every depth |
| `FlowReadBack.BuiltStepCarries` | main.py:1254-1332 | the same for one step: code, input, items, branch names and conditions, piece, action |
| `FlowReadBack.LoopFlowCarries` | main.py:2608-2645 | the loop endpoint's flow carries the steps before, one loop over the body and the steps after |
| `FlowReadBack.RouterFlowCarries` | main.py:2572-2605 | the router endpoint's flow carries one router over the branches and the steps after |
| `FlowReadBack.ChainRowFound` | main.py:1234-1322 | every row of the summary describes a step of the document |
| `FlowReadBack.ErrorHasCause` | main.py:1167-1365 | a failed build names a specification, at any depth, that causes that error |
| `FlowNumbering.ChainSize` | main.py:1172-1173 | the counter moves by the number of steps, and the tree has that many |
| `FlowNumbering.FreshNumbering` | main.py:1171-1174 | names step_c … step_{c+size-1} are used once each and no other name is, across nesting |
| `FlowNumbering.SpineNames` | main.py:1344-1352 | the i-th top-level step is numbered after everything behind it |
| `FlowNumbering.ChainInfo` | main.py:1234-1322 | the build summary lists the steps in the order of their numbers without gaps |
| `FlowNumbering.SortChangesNothing` | main.py:1152-1164 | any sort of the summary by step number is the summary itself |
| `FlowNumbering.SummaryIsReversed` | main.py:1152-1164 | in a flat chain the i-th step to run is the i-th row from the end |
| `FlowNumbering.SummaryStartsRightIff` | main.py:1152-1164 | the first row is the first step exactly in a chain of one |
| `FlowValidate.PassesIffBuilds` | main.py:1094-1149 | for every resolver, at any depth: what passes the check and resolves is what builds and names its actions |
| `FlowValidate.PassedFailsUnresolved` | main.py:1094-1149 | for every resolver: after a passing check the build succeeds or fails on an unresolved request only |
| `FlowValidate.FatalNeverBuilds` | main.py:1094-1149 | for every resolver: a complaint of a missing piece or an unknown type is about a list that cannot be built |
| `FlowComplaint.ComplaintIsFirst` | main.py:1094-1149 | a complaint names the first faulty step in reading order, by its position and for what is wrong with it; none means no step is faulty |
| `FlowBuilder.Builder.BuildStep` | main.py:1167-1332 | the step, the counter and the summary of the specification function, or its error |
| `FlowBuilder.Builder.BuildChain` | main.py:1335-1365 | the loop over the reversed specifications builds the specification's chain |
| `FlowBuilder.Builder.BuildChildren` | main.py:1284-1305 | one child per branch in order, sharing the counter |
| `FlowSplice.Splice` | main.py:2634-2640 | the tail walk ends, the chain reads as before followed by the loop, and no other object changes |
| `FlowSplice.BuildLoop` | main.py:2621-2645 | the linked objects read back as the specified loop flow, or the same error |
| `FlowSplice.BuildRouter` | main.py:2579-2605 | the specified router flow, or the same error |
| `FlowSplice.ReadBackConcat` | main.py:2634-2640 | concatenated objects read back as appended chains |
| `FlowSplice.LoopFlowMeaning` | main.py:2621-2645 | the loop flow runs as before ++ [loop(body)] ++ after |
| `FlowSplice.LoopFlowNames` | main.py:2621-2633 | every name is used at most once, and exactly those of one range are |
| `FlowSplice.RouterFlowMeaning` | main.py:2579-2605 | the router flow runs as [router] ++ after |
| `FlowSplice.RouterFlowNames` | main.py:2579-2605 | every name is used at most once, and exactly those of one range are |
| `FlowWalkers.Diagnosis.Walk` | main.py:1748-1780 | appends the rows of the tree in walking order |
| `FlowWalkers.RowsCount` | main.py:1748-1780 | the diagnosis lists every step exactly when no step carries parts its type does not call for |
| `FlowWalkers.DiagnosisCounts` | main.py:1720-1787 | on a compiled flow it counts one trigger and every specified step |
| `FlowDiagnosis.StepHasRow` | main.py:1748-1780 | every step reached by routers and loops has a row with its name, type, depth, validity and keys without a value |
| `FlowDiagnosis.RowHasStep` | main.py:1748-1780 | and every row is that of such a step |
| `FlowDiagnosis.RowsValidIff` | main.py:1754-1780 | all rows are valid exactly when all those steps are; where nothing is stray, when every step of the document is |
| `FlowWalkers.RenderInjective` | piece_validator.py:84-113 | different positions have different path texts |
| `FlowWalkers.RenderExtends` | piece_validator.py:84-113 | the path text grows by `.nextAction`, `.children[i]` or `.firstLoopAction` from `trigger` on |
| `FlowWalkers.WalkExact` | piece_validator.py:84-113 | a step is visited at a path if and only if it is the step at that position, each once, with distinct path texts |
| `FlowWalkers.WalkersAgreeIff` | piece_validator.py:84-113 | diagnosis and validation see equally many steps exactly when nothing is stray |
| `FlowWalkers.CollectPieces` | main.py:1371-1381 | adds the pieces of the tree to the set it is given |
| `FlowWalkers.PiecesAreVisited` | main.py:1371-1381 | a piece is collected exactly when a visited step names it |
| `FlowWalkers.CollectedIff` | main.py:1371-1381 | a piece is collected exactly when a step at some position names it |
| `FlowWalkers.ShortOf` | main.py:1371-1381 | full names are collected by their short form |
| `PieceValidator.NoStepErrorsIff` | piece_validator.py:142-309 | a step yields no error exactly when it meets the registry's conditions |
| `PieceReport.ReportedIff` | piece_validator.py:135-307 | for every step and table: each of the twelve errors is in the report, for its field, exactly when the step's own texts and values call for it |
| `PieceReport.PassesWhenNothingReported` | piece_validator.py:135-307 | a step passes exactly when none is called for |
| `PieceReport.BannedIff` | piece_validator.py:74-81 | a value is banned exactly when some text at some path inside it is, between blanks, one of the four placeholders |
| `PieceReport.HandlebarsIff` | piece_validator.py:61-71 | and dynamic exactly when some text inside it holds `{{…}}` in one line |
| `PieceReport.VersionIff` | piece_validator.py:55-59 | the version of a range text, told by what is stripped |
| `Strings.TrimIff` | piece_validator.py:74-81 | trimming leaves exactly what stands between the blanks at both ends |
| `PieceValidator.ValidateTrigger` | piece_validator.py:130-309 | collects the errors of every visited step in order |
| `PieceValidator.ValidateStep` | piece_validator.py:144-307 | the errors of one step in the order reported |
| `PieceValidator.PassesIff` | piece_validator.py:130-309 | a document passes exactly when the step at every position does |
| `PieceValidator.CompiledPassesIff` | main.py:1471-1486 | a compiled flow passes exactly when its trigger and every specification do, however deep |
| `FlowGraph.Graph.Walk` | main.py:3503-3524 | appends the subtree's nodes and edges: successor, labelled branches, children |
| `FlowGraph.FlowToGraph` | main.py:3463-3536 | nodes and edges of the document's layout |
| `FlowGraph.GraphIsTree` | main.py:3463-3536 | n nodes numbered 1 to n with distinct id texts, n-1 edges, one into each but the root, from a smaller number, each joining a step to the one directly above it |
| `FlowGraph.OneEdgeIn` | main.py:3496-3500 | every node but the root has exactly one incoming edge |
| `FlowGraph.Climb` | main.py:3463-3536 | from every node the edges lead back to the root |
| `FlowGraph.LayoutFits` | main.py:3504-3524 | every drawn step is the step of the document at its position |
| `FlowGraph.NodesAreSteps` | main.py:3474-3524 | each node shows type, piece and name of the step at its position, and every position below the trigger's successor is drawn |
| `FlowGraph.ViewFound` | main.py:3480-3500 | what the view reads of a compiled flow at a position is the step there |
| `FlowGraph.BranchLabelled` | main.py:3513-3521 | every listed branch is drawn with its own label on its edge |
| `FlowGraph.Graph.LabelLast` | main.py:3517-3521 | the backward search labels exactly the edge of the branch just walked |
| `FlowGraph.DrawnCompletelyIff` | main.py:3503-3524 | a chain is drawn completely exactly when no step of it has a loop body |
| `GoldenBuild.Platform.PublishAndEnable` | main.py:255-314 | one publish; a flow not ENABLED by it is enabled, a second time unless the platform refuses; success exactly on a last read that shows ENABLED |
| `GoldenBuild.Platform.VerifyFlow` | main.py:245-253 | a read whose trigger is EMPTY is an error |
| `GoldenBuild.Gate` | main.py:1519-1579 | passes iff no step is lost or invalid, and otherwise reports exactly the two counts or the invalid rows |
| `GoldenBuild.IntactIff` | main.py:1519-1579 | where nothing is stray: not fewer steps than sent, the step at every position valid, a trigger that is not EMPTY |
| `GoldenBuild.InvalidStepStops` | main.py:1536-1579 | one invalid step at any position the walk sees stops the build |
| `GoldenBuild.InvalidRowsAre` | main.py:1536-1552 | the steps reported are the invalid ones, each as often as it is there |
| `GoldenBuild.GoldenBuild` | main.py:1451-1715 | over every platform: calls only in the disciplined order; an invalid document makes none; a created flow that is still there is stamped unless its deletion failed; success means read back with every step valid before publishing, stamped, last read ENABLED and registered; a failure is the one its last calls show; no other flow is touched |
| `GoldenBuild.VerifiedBeforePublished` | main.py:1487-1585 | whatever is published or enabled was stamped, imported and read back intact first |
| `GoldenBuild.FlowBelongsTo` | main.py:416-447 | the registry decides when it can be read and has the flow, else the stamp; read errors say no |
| `GoldenBuild.BuildThenAsk` | main.py:416-447 | after a successful build of a flow new to the registry, the answer is yes for the building project and for no other tenant |
| `Dahae.RoundIsNearest` | scripts/compute_dahae_scores.py:203-222 | rounding gives the nearest integer, the even one of two |
| `Dahae.EntropyNonNegative` | scripts/compute_dahae_scores.py:153-165 | name entropy is not negative |
| `Dahae.VariationUnit` | scripts/compute_dahae_scores.py:168-180 | the capped coefficient of variation is between 0 and 1 |
| `Dahae.ScoreBounds` | scripts/compute_dahae_scores.py:185-222 | 0 ≤ laziness ≤ 100 and 0 ≤ effective ≤ dahae ≤ 100 for every piece |
| `Dahae.PointsEarned` | scripts/compute_dahae_scores.py:96-203 | what each verb, required field, compound action, side and decimal power of users is worth |
| `Dahae.PointsOfLaziness` | scripts/compute_dahae_scores.py:143-222 | what missing types, low entropy and low variation cost |
| `Dahae.CountsGoByAction` | scripts/compute_dahae_scores.py:96-150 | verbs count once, required fields, compound and untyped actions one by one |
| `Dahae.UniformEntropy` | scripts/compute_dahae_scores.py:153-165 | tokens that are all different have the entropy of a fair draw |
| `Dahae.HalfVariation` | scripts/compute_dahae_scores.py:168-180 | one action asking three times as much as the other varies by one half |
| `Dahae.DistinctOnce` | scripts/compute_dahae_scores.py:153-165 | each token counts once in the entropy |
| `Dahae.EffectiveMonotone` | scripts/compute_dahae_scores.py:222 | a lazier or poorer piece never has the higher effective score |
| `Dahae.TriggerOnlyCeiling` | scripts/compute_dahae_scores.py:196-222 | a piece without actions scores at most 18 and effectively at most 9 |
| `Registry.ClassifyProps` | scripts/sync_activepieces_registry.py:149-182 | each class holds exactly the properties of its kind |
| `Registry.RowsAgree` | scripts/sync_activepieces_registry.py:333-376 | the indexes have a row for exactly the named pieces, that of the last file naming each |
| `Registry.FilesDetermineRows` | scripts/sync_activepieces_registry.py:368-376 | equal index files mean equal rows |
| `Registry.IndexesShow` | scripts/sync_activepieces_registry.py:333-376 | from the files to the records: each named piece's actions, triggers, three field lists, auth and stamp are those of the last file naming it, and no other piece is listed |
| `Registry.ShortTarget` | scripts/sync_activepieces_registry.py:91-105 | a bare short name is its own file name, and is asked for by the full one |
| `Registry.FullTarget` | scripts/sync_activepieces_registry.py:91-105 | a full name is asked for as it is, and its file drops the vendor's part |
| `Registry.BlankTarget` | scripts/sync_activepieces_registry.py:98-105 | a blank target names nothing |
| `Registry.MarksGoneConcat` | scripts/sync_activepieces_registry.py:91-95 | of another vendor's name each character is kept, dropped or replaced on its own |
| `Registry.FetchedLast` | scripts/sync_activepieces_registry.py:453-522 | the fetched file of a name is the answer about the last target of that name that got one |
| `Registry.Disk.Validate` | scripts/sync_activepieces_registry.py:391-447 | zero exactly when the disk is consistent with a fresh rebuild, targets given by short or full name; a file without one of the eight keys, or of another format, fails |
| `Registry.Disk.Sync` | scripts/sync_activepieces_registry.py:453-522 | the exit code, and nothing is written without a configuration, on a failed fetch or on a dry run; else the fetched files over the old ones and indexes over all |
| `Registry.SyncThenValidate` | scripts/sync_activepieces_registry.py:453-522 | after a successful synchronisation no index has drifted and validation passes |

## Left out

Assumptions and abstractions of the vault model:

- Randomness does not repeat: nonces, row ids, data keys and connection ids are new when drawn. Sagas are indexed by their nonce, which is a unique column. The external id of a connection stands for the one requested, whose 16-character saga prefix is taken not to collide.
- A commit either happens or does not; a commit whose outcome the client cannot tell, the deletion of a tenant with its rows, and edits of connections by other users of Activepieces are not modelled.
- The clock is one global clock; a claim reads it before its transaction, every other step when it commits. Expiry times are whole seconds.
- Signature checks of webhooks, audit rows, logging, log scrubbing and SSE broadcasts are not part of the state.
- TokenTable.Table.ClaimDueTokens: the rows the SELECT returns are an input, since which of several batches the database locks is not determined; any batch that meets the query is allowed.
- Concurrency limits inside one replica (the semaphores of refresh_due_tokens) and its summary counters are left out; they restrict runs and add none.
- Refresh-token rotation keeps the caller's associated data of the row read; provider errors are two kinds, terminal and transient.

State token and encryption:

- Only ASCII payload bytes and objects of strings and integers parse; other JSON values, other encodings and lone surrogates are refused, none of which the printer produces.
- Python's int() on a text claim is a parameter, and its limit on digits is not modelled.
- Timing-safe comparison is plain equality.

Flow compiler and pipeline:

- FlowBuilder.Builder.BuildChain: after an error, counter and summary are left as they stand, which no caller reads.
- The piece resolver (catalogue look-ups, fuzzy names, defaults, property settings) is a parameter; display names, hints and messages are not carried.
- How the engine evaluates a condition, and how many items a loop has, is an oracle over the history so far.
- FlowValidate: action and piece names are taken as trimmed, in the check and in the builder.
- A step's `input` is an object or counts as empty; dictionary entries are a list with distinct keys; strip() knows ASCII whitespace.
- GoldenBuild.GoldenBuild: a failed call has no effect, so the transparent retry of a create request that did take effect is not modelled; nobody else edits or deletes flows while a build runs, and platform ids are not reused.
- The activation pulse, link extraction and the e-mail search run after the outcome is decided.
- The pending-connections draft, templates, presets, the recipe builder and ingestion are single-pass code with no property across functions.

Scores and registry:

- What the name heuristics find in an action's name is given with the action; logarithms and square root are functions with the laws the bounds need; floating-point error is not modelled.
- Registry.Disk.Sync: sorted lists are sets, a crash between two file writes is not modelled, and files that do not parse are not either.
