# GetVul in Dafny

A model of the stateful cores of GetVul's backend and proofs about all of their runs. In each
core an incremental or optimised state stands in for a simple specification, and the theorems say
where the two agree.

- **Rate limiter** (`RateLimiter`). A pruned, expiring Redis sorted set stands in for the log of
  all requests. Redis execution time and request stamps are separate clocks.
- **Exposure context** (`ExposureModel`, `ExposureAsset`, `ExposureDiffs`, `ExposureCatalog`,
  `ExposureWorld`, `ExposureRuns`, `ExposureService`, `ExposureAudits`, `InferenceLaws`). Three
  fields per asset with their source tags form a view of "asset override, else newest group
  override, else inference". Asset rows are objects updated in place, the entry points are methods
  of one session, and `ExposureWorld` is the state machine they are proved against.
- **Key rotation** (`KeyRotation`, `KeyRotationProofs`, `KeyRotationRace`). One transaction with a
  possible exception at every effect, over rows whose column may be absent, unparsable, not an
  object, or an object with non-string fields. The cipher's behaviour is a parameter.
  `KeyRotationRace` adds backends that store credentials between the load and the commit.
- **AI calls** (`AnswerGates`, `ExplainEngine`, `ExplainTraces`, `InflightGuard`, `CacheKey`,
  `ScannerBlock`). The interactive engine produces a trace of effects which a monitor reads, and
  `ExplainTraces` says what such a trace promises; the model's answers, the gates, the failing
  effects and the client's aborts are arbitrary.
- **Batches** (`BatchCost`, `BatchWork`, `BatchProtocol`, `BatchAudits`, `BatchRaces`,
  `BatchPoller`, `BatchPrewarm`, `BatchSpend`). `BatchWork` says what one finished batch asks for,
  `BatchProtocol` lets any number of pollers interleave, fail and die, the imperative poller is
  proved to perform runs of it, and `BatchSpend` adds up what those runs charge.
- **Passwords and risk** (`PasswordPolicy`, `PasswordHistory`, `Powers`, `RiskCurve`,
  `RiskCurveExact`). Truncated history against full history, the policy floor as a join, and the
  piecewise curve through exact integer powers.

`dafny verify dfyconfig.toml` checks everything.

## Where the code and its comments differ

The model follows the code.

- `backend/app/assets/risk_score.py:67-68` says low-severity volume cannot inflate a score past
  about 45. More than 120 plain LOW findings do (`RiskCurve.LowVolume`).
- `backend/app/ai/batch.py:380-381` handles a job "completed/removed concurrently", but the row is
  looked up by id only, so a job completed meanwhile is worked through again
  (`BatchAudits.OverlapAuditsTwice`). A line has exactly one audit row exactly when its job was
  visited once (`BatchAudits.AuditedOnceIffVisitedOnce`).
- `backend/app/assets/router.py:639-642` says re-inference writes only fields still on AUTO.
  That holds for the sync path. A recompute leaves the others alone exactly when each GROUP_OVERRIDE
  field shows what a group now says (`ExposureRuns.FullPathSparesOthersIff`), and re-infers those no
  group backs any more (`ExposureRuns.OrphanedFieldIsInferred`).
- "Most recently updated group wins" goes by the stored stamp: setting an override to the value it
  already has keeps the old one, and a slow transaction stores an old one
  (`ExposureRuns.GroupWriteDecides`, `ExposureRuns.OldStampCanDemote`).

## Model

| member | source | states |
|---|---|---|
| `RateLimiter.TenantRateLimit.Dispatch` | backend/app/main.py:213-246 | One request prunes, adds itself (rejected or not), counts and renews the expiry of its own key, and is answered 429 with Retry-After 60 exactly when more than 200 entries remain; no other key changes. |
| `RateLimiter.RateBound` | backend/app/main.py:190-246 | In every run with stamps at most `lag` ms behind a nondecreasing Redis clock and unique members, any half-open window of 60 s minus `lag` admits at most 200 requests of a key, expiry of the whole key included; `lag` 0 gives the full minute. |
| `RateLimiter.RateBoundIsTight` | backend/app/main.py:213-237 | For every `lag` there is a legal run in which the window widened by one millisecond admits 201. |
| `RateLimiter.TrimmedSetRefinesLog` | backend/app/main.py:221-237 | On one shared clock the pruned, expiring set counts exactly the requests of the full log (rejected ones too) in the last 60 s, so each decision is the decision on the unbounded log. |
| `RateLimiter.ExpiryDropsNothingPruningKeeps` | backend/app/main.py:222-225 | On one shared clock, when a key has expired, pruning would have removed each of its entries anyway. |
| `RateLimiter.SilenceAdmits` | backend/app/main.py:213-237 | After 60 s without a request on the key the next one is admitted, whatever the application servers' clocks say. |
| `RateLimiter.KeysAreIndependent` | backend/app/main.py:211-237 | Every decision on a key is the one a limiter serving that key alone would make. |
| `ExposureModel.WritesAreLegal` | backend/app/assets/exposure.py:138-227 | Every inferred value and every cast of a validated override is a member of its field's enumeration. |
| `ExposureModel.PathsStayLegal` | backend/app/assets/exposure.py:138-375 | From a legal row, whatever the inputs and whatever validated overrides apply, both paths leave a legal row. |
| `InferenceLaws.CriticalityLaw` | backend/app/assets/exposure.py:128-173 | Criticality over the texts themselves: CRITICAL exactly for a `pci` or `tier-1` tag in any letter case, one of the four departments in any case and with blanks around, or a listed word inside the title; else HIGH, LOW or MEDIUM by their own signals, in that order. |
| `InferenceLaws.SensitivityLaw` | backend/app/assets/exposure.py:175-181 | Sensitivity likewise: RESTRICTED, CONFIDENTIAL, PUBLIC, INTERNAL, the first whose tag or department is there. |
| `InferenceLaws.FacingLaw` | backend/app/assets/exposure.py:183-189 | A connector's own signal decides alone; without one internet-facing is true exactly for the tag or an external address. |
| `InferenceLaws.OverrideLaw` | backend/app/assets/groups_router.py:76-88 | Which texts are accepted as an override of each field, and that exactly `true`, in any case and with blanks around, makes internet-facing true. |
| `InferenceLaws.SyncedFieldsFollowTheLaws` | backend/app/connectors/sync.py:326-327 | After a connector sync every field still on AUTO shows what those laws make of the new columns. |
| `ExposureAsset.Asset.ApplyInference` | backend/app/assets/exposure.py:194-227 | The in-place loop writes exactly the AUTO fields whose inferred value differs, changes no source, and returns exactly those changes. |
| `ExposureAsset.Asset.ApplyPrecedence` | backend/app/assets/exposure.py:311-375 | The two in-place loops give the row "own override, else group override, else inference" with the matching source, and a change list in visiting order. |
| `ExposureAsset.Asset.ApplyGroupOverrides` | backend/app/assets/exposure.py:328-346 | The first loop applies exactly the covered fields, records their changes in order and leaves the uncovered ones without an asset override to inference. |
| `ExposureAsset.Asset.VisitGroupOverride` | backend/app/assets/exposure.py:331-346 | One turn of the first loop touches one field only, never a field with an asset override, and leaves exactly the uncovered ones to inference. |
| `ExposureAsset.Asset.VisitInferred` | backend/app/assets/exposure.py:362-373 | One turn of the second loop infers one field and reverts its source to AUTO. |
| `ExposureAsset.Asset.InferAll` | backend/app/assets/exposure.py:348-373 | The second loop sets every left-over field to its inferred value and reverts its source to AUTO. |
| `ExposureAsset.Asset.Pin` | backend/app/assets/router.py:648-653 | An asset-override PATCH sets one field and its source and nothing else. |
| `ExposureDiffs.ExactDiffReplays` | backend/app/assets/exposure.py:194-227 | A change list that names each moved field once, with old and new value, replayed on the old values gives the new ones. |
| `ExposureDiffs.FullChangesAreExact` | backend/app/assets/exposure.py:311-375 | The list the full path returns is such an exact diff: each field at most once, old different from new, nothing missing. |
| `ExposureDiffs.CheapChangesAreExact` | backend/app/assets/exposure.py:194-227 | So is the list of the sync-time path. |
| `ExposureDiffs.FullIsIdempotent` | backend/app/assets/exposure.py:311-375 | A second application of the full path changes nothing and returns no changes. |
| `ExposureDiffs.CheapPathRefinesFullPath` | backend/app/assets/exposure.py:194-227 | The group-unaware path gives the same fields and sources as the group-aware one if and only if the row's group-driven fields are current. |
| `ExposureDiffs.CheapPathReportsFullChanges` | backend/app/assets/exposure.py:194-227 | In that case it also returns the same change list. |
| `ExposureCatalog.ResolveGroupOverrides` | backend/app/assets/exposure.py:263-289 | The `best` loop returns, for every field with a row, the first among the rows with the newest `updated_at`. |
| `ExposureCatalog.LoopResolves` | backend/app/assets/exposure.py:263-289 | Over any listing of the join the loop finds a newest override; when groups that set a field at one instant set it to one value, every row order gives the same answer. |
| `ExposureCatalog.ResolutionIsUnique` | backend/app/assets/exposure.py:263-289 | Agreeing ties make what an asset's groups say unique. |
| `ExposureCatalog.ResolutionIsUniqueIff` | backend/app/assets/exposure.py:263-289 | What an asset's groups say is independent of how it was found if and only if the asset's newest overrides agree field by field. |
| `ExposureService.Session.Sync` | backend/app/connectors/sync.py:326-327 | The sync entry point writes the inputs, runs the cheap path on one row object and audits only a change. |
| `ExposureService.Session.DeleteGroup` | backend/app/assets/groups_service.py:85-90 | Deletes the group with its memberships and overrides, and deliberately touches no asset. |
| `ExposureService.Session.AddMember` | backend/app/assets/groups_service.py:93-120 | Checks group and asset against the caller's tenant, is idempotent, and re-derives and audits the one asset. |
| `ExposureService.Session.RemoveMember` | backend/app/assets/groups_service.py:151-176 | Removes the membership and re-derives the asset, looked up in the caller's tenant. |
| `ExposureService.Session.SetGroupOverride` | backend/app/assets/groups_router.py:247-310 | The upsert (which keeps the old timestamp when the value is unchanged, and may store one older than other groups' timestamps), the loop over members and the single audit row give the world the state machine prescribes. |
| `ExposureService.Session.ReapplyMembers` | backend/app/assets/groups_router.py:281-299 | The member loop, one row object at a time and whatever the order, re-derives exactly the members that are the tenant's own. |
| `ExposureService.Session.SetAssetOverride` | backend/app/assets/router.py:629-673 | 404 for a foreign asset; otherwise one field pinned and one audit row. |
| `ExposureService.Session.Recompute` | backend/app/assets/exposure.py:378-399 | Re-derives the tenant's assets one after the other in any listing order, audits exactly the changed ones and counts them. |
| `ExposureAudits.MovedAreRecorded` | backend/app/assets/exposure.py:378-399 | A recompute leaves an audit row with an exact diff for every listed asset whose values move. |
| `ExposureAudits.RecordedHaveMoved` | backend/app/assets/exposure.py:378-399 | And no other row. |
| `ExposureAudits.RecomputeCounts` | backend/app/assets/exposure.py:390-399 | So the number it returns is that of the assets whose values moved. |
| `ExposureAudits.SyncAuditIs` | backend/app/assets/exposure.py:230-260 | A sync leaves one row recording what it moved, measured against the stored values or the column defaults of a new row, or none when nothing did. |
| `ExposureAudits.ReapplyAuditIs` | backend/app/assets/groups_service.py:117-120 | Joining or leaving a group does the same for the one asset. |
| `ExposureAudits.OverrideAuditsAre` | backend/app/assets/router.py:655-662 | The two override requests each leave one row with the old and the new value, and nothing at all for a foreign group or asset. |
| `ExposureRuns.RunsAreCoherent` | backend/app/assets/exposure.py:311-399 | After any run of sync, group creation and deletion, member add and remove, group override (with newer, older or agreeing equal stamps), asset override and recompute from an empty database, every field is a legal value and value and source equal "asset override, else newest group override, else inference", except on assets a deleted group left behind. |
| `ExposureRuns.GroupWriteDecides` | backend/app/assets/groups_router.py:262-299 | After an accepted group override a member's field that is not the asset's own shows the value of the newest overrides: the written one if every other group's stamp is older than the one now stored, another group's if any is later. An unchanged value keeps the old stamp; the asset's own override stays. |
| `ExposureRuns.OldStampCanDemote` | backend/app/assets/groups_router.py:277-283 | A witness: a slow write with an old stamp can take a field away from its own group and hand it to one that was behind. |
| `ExposureRuns.FullPathSparesOthersIff` | backend/app/assets/exposure.py:331-373 | The full path leaves every field that is not AUTO alone if and only if each GROUP_OVERRIDE field shows what a group now says. |
| `ExposureRuns.OrphanedFieldIsInferred` | backend/app/assets/exposure.py:362-373 | A GROUP_OVERRIDE field no group backs any more is inferred again and turned AUTO. |
| `ExposureRuns.RecomputeTouchesOnlyStale` | backend/app/assets/exposure.py:378-399 | In every reachable state a recompute changes only assets a deleted group left behind. |
| `ExposureRuns.StepKeeps` | backend/app/assets/groups_service.py:85-176 | Each of the eight operations keeps that invariant, the bookkeeping of stale assets included. |
| `ExposureRuns.OnlyDeletionsLeaveStaleAssets` | backend/app/assets/groups_service.py:85-90 | A run without group deletion leaves no asset stale. |
| `ExposureRuns.DeletionLeavesStale` | backend/app/assets/groups_service.py:85-90 | A deletion leaves a field of a coherent asset wrong exactly when the deleted group was driving it and no remaining group says the same. |
| `ExposureWorld.FullPathRestores` | backend/app/assets/exposure.py:311-375 | The full path makes any legal row follow the rule, so a recompute ends staleness. |
| `ExposureRuns.SyncAgreesWithFullPath` | backend/app/assets/exposure.py:194-227 | On a non-stale asset in any reachable state, and for any new inputs, the sync path and the full path give the same row and the same changes. |
| `ExposureRuns.AssetOverrideIsPermanent` | backend/app/assets/exposure.py:331-334 | Once a field's source is ASSET_OVERRIDE, only another asset-override PATCH of that field ever changes it, in any run. |
| `ExposureRuns.TenantsAreIsolated` | backend/app/assets/exposure.py:271-281 | Override resolution has no tenant filter, yet no run of one tenant's operations changes another tenant's asset. |
| `ExposureRuns.RecomputeIsIdempotent` | backend/app/assets/exposure.py:378-399 | A second recompute, in any listing order, changes no row and writes no audit row. |
| `KeyRotation.Session.Rotate` | backend/app/encryption.py:126-294 | For any table and any failure point: rows and audit log are untouched unless the outcome is a commit, and then every row is the re-encrypted one and the audit row landed in the same commit; the session is always left clean; an unexpected error happens only where an effect raised. |
| `KeyRotation.Session.CheckAndDecode` | backend/app/encryption.py:183-212 | The pre-flight loops report exactly the unreadable fields, and index the decoded plaintexts of every loaded object row by its id. |
| `KeyRotation.Session.Reencrypt` | backend/app/encryption.py:232-238 | Given pre-flight's map no lookup by connector id can miss, and every loaded row is rebuilt from its own plaintexts. |
| `KeyRotation.Session.CheckAll` | backend/app/encryption.py:240-250 | Post-verify reports exactly the fresh fields that do not open under the new key. |
| `KeyRotation.Session.Attempt` | backend/app/encryption.py:169-286 | The transaction body up to the commit: an exception or a controlled abort leaves the committed tables untouched. |
| `KeyRotation.Session.Rewrite` | backend/app/encryption.py:232-279 | From a clean pre-flight on: re-encrypt, check, audit and commit, or leave the committed tables untouched. |
| `KeyRotation.Session.AuditAndCommit` | backend/app/encryption.py:256-279 | Audit row and rows are published together or not at all. |
| `KeyRotation.Session.Verify` | backend/app/encryption.py:72-123 | The read-only check reports exactly the failing fields and splits loaded rows into ok and failing. |
| `KeyRotationProofs.CommittedRotation` | backend/app/encryption.py:232-254 | Under any cipher, a committed rotation keeps every row's exact field names and order and every field opens under the new key; the plaintexts survive if and only if the cipher returned what it sealed. |
| `KeyRotationProofs.HonestRotationSucceeds` | backend/app/encryption.py:183-254 | With a faithful cipher a table is rotated if and only if it passes pre-flight, and every plaintext survives. |
| `KeyRotationProofs.ReadersSeeNoDifference` | backend/app/connectors/service.py:152-160 | After a committed rotation, reading any row's credentials under the new key gives exactly the map the old key gave before. |
| `KeyRotationProofs.WritersRoundTrip` | backend/app/connectors/service.py:78-130 | What creating or updating a connector stores reads back as submitted. |
| `KeyRotationProofs.ThereAndBack` | backend/app/encryption.py:126-294 | Rotating k1 to k2 to k1 cannot fail on the way back, touches the same number of rows and restores all plaintexts under k1. |
| `KeyRotationProofs.VerifyAgainstPreflight` | backend/app/encryption.py:93-123 | Everything verify reports pre-flight reports; the lists are equal exactly when no field decrypts to bytes that are not UTF-8, and otherwise differ by the number of those. |
| `KeyRotationProofs.VerifyPassesAfterwards` | backend/app/encryption.py:93-123 | After a committed rotation verify under the new key reports no failure and counts every loaded row ok. |
| `KeyRotationProofs.MixedKeysAbort` | backend/app/encryption.py:188-216 | A single field under another key aborts in pre-flight and is named. |
| `KeyRotationProofs.DoneReports` | backend/app/encryption.py:218-230 | A rotation that ends well reports the number of rows with some field and the number of tenants with a loaded row, and writes exactly when it was no dry run. |
| `KeyRotationProofs.AuditRowIs` | backend/app/encryption.py:256-277 | The audit row is there when asked for and some row has a field; it names the first loaded row's tenant and both counts. |
| `KeyRotationProofs.VerifyCounts` | backend/app/encryption.py:93-123 | verify counts as ok the loaded rows all of whose fields are sealed under the key. |
| `KeyRotationProofs.ToMapIs` | backend/app/connectors/service.py:158 | The credentials read are the fields by name. |
| `KeyRotationRace.NewestCredentialsSurviveIff` | backend/app/encryption.py:171-279 | Rows are loaded without a lock. After the commit every reader with the new key gets the newest submitted credentials if and only if the last write to each row in between submitted what was there at load, or nothing to a row the session leaves alone. |
| `KeyRotationRace.LeftUnderOldKeyIff` | backend/app/encryption.py:171-279 | The rows left under the old key are exactly those that got credentials in between and that held no field at load: connectors created after it, or without credentials at it. |
| `KeyRotationRace.CommitAlone` | backend/app/encryption.py:232-279 | Without a write in between the commit is the rotation of every row. |
| `KeyRotationRace.CommitTouchesOneColumn` | backend/app/encryption.py:232-238 | The commit keeps every row it meets, with its tenant, and leaves rows created after the load alone. |
| `ExplainEngine.RunExplain` | backend/app/ai/explain.py:258-518 | For arbitrary answers, exceptions at any effect, cancellations while awaiting any effect and client aborts after any event: the trace never breaks the validate-before-emit discipline; nothing is sent or audited after a cancellation; the guard is released on every way out iff this call took it (unless the release itself raised or was cancelled); a finished call sent exactly one terminal event; an undisturbed one sent the event its answers deserve, with one audit row per dispatch and exactly the deserved statuses. |
| `ExplainEngine.Guarded` | backend/app/ai/explain.py:332-518 | try/except/finally: an unexpected exception is audited `unknown` and answered, a cancellation is neither, and the guard goes back either way. |
| `ExplainEngine.Attempts` | backend/app/ai/explain.py:343-489 | The attempt loop dispatches at most twice; the second conversation is the first plus the rejected answer and the correction; only validation failures and ungrounded answers are retried. |
| `ExplainEngine.Judge` | backend/app/ai/explain.py:388-489 | One answer goes through schema and business rules, grounding, leak marker and denylist in that order; it ends the run the way its verdict deserves or leaves exactly one retry. |
| `ExplainEngine.RejectOrRetry` | backend/app/ai/explain.py:394-428 | A rejected or ungrounded answer is audited once, and is terminal exactly on the second attempt. |
| `ExplainEngine.ReportUnknown` | backend/app/ai/explain.py:490-516 | After an unexpected exception a call that still finishes has sent the `unknown` error as its only terminal event. |
| `ExplainEngine.RefuseOverBudget` | backend/app/ai/explain.py:308-323 | Over budget: administrators notified, one audit row, one error, no dispatch and no guard taken, when nothing disturbs the call. |
| `ExplainTraces.DispatchMeansUnderCap` | backend/app/ai/budget.py:60-80 | A call that dispatches at all found the month's spend below the cap, and its own audit rows add exactly the price of the one accepted answer, or nothing. |
| `ExplainEngine.Publish` | backend/app/ai/explain.py:469-489 | Cache, then audit `ok`, then replay, then `done`, in that order whatever fails in between. |
| `ExplainEngine.ChunkForReplay` | backend/app/ai/explain.py:128-135 | The chunks are non-empty, all but the last exactly 80 characters, and join to the text. |
| `ExplainTraces.DoneIsEarned` | backend/app/ai/explain.py:469-489 | A `done` event's payload passed every gate, was cached and then audited `ok` earlier, and the replayed pieces join to its summary. |
| `ExplainTraces.CachedPassedEveryGate` | backend/app/ai/explain.py:392-473 | Nothing is cached that failed a gate or was not the model's latest answer. |
| `ExplainTraces.NoTextBeforeValidation` | backend/app/ai/explain.py:469-488 | No piece of a summary is sent before a payload that passed every gate was cached and audited `ok`. |
| `ExplainTraces.DispatchesAreBounded` | backend/app/ai/explain.py:343-386 | There are at most two dispatches, each with the conversation the retry rule prescribes. |
| `ExplainTraces.ConversationsAre` | backend/app/ai/explain.py:195-203 | The first dispatch carries the prompt alone; a second one comes only after an answer that failed schema, business rules or grounding, and carries the prompt, that answer as the assistant's turn and the correction. |
| `ExplainTraces.UndisturbedCallsEndAs` | backend/app/ai/explain.py:343-489 | Case by case over the answers: which statuses are audited and which event ends an undisturbed call, for throttled, malformed, ungrounded, leaking, dangerous and accepted answers, at the first and at the second attempt. |
| `ExplainTraces.UndisturbedRefusalsEndAs` | backend/app/ai/explain.py:297-330 | Without a key, over budget or with another call in flight: no dispatch, the one event and, over budget only, the one audit row. |
| `ExplainTraces.AuditedPrices` | backend/app/ai/explain.py:474-485 | The `ok` audit carries the price of the very answer that was accepted; every other row carries none or zero. |
| `ExplainTraces.PassesMeans` | backend/app/ai/schemas.py:117-161 | What the gates let through: at most 4000 characters in either text, allowed citations only, grounded, nothing leaked and nothing dangerous. |
| `ExplainTraces.WatchCounts` | backend/app/ai/explain.py:258-518 | The joined replay texts, the dispatch count, the audit statuses and the last event are those of the trace. |
| `InflightGuard.ExclusionIff` | backend/app/ai/cache.py:97-118 | For every run and tenant: at most one call is in flight at every moment if and only if no call ever asks for the guard while a living holder is past its TTL; while that holds the stored guard is the holder's. |
| `InflightGuard.TimelyRunsExclude` | backend/app/ai/cache.py:97-118 | In particular, for any interleaving, callers that die included, in which every living holder of a tenant is within its 120 s, at most one call of that tenant is between acquire and release, and the stored guard is the holder's, whatever other tenants' calls do. |
| `InflightGuard.ReleaseIsOwn` | backend/app/ai/cache.py:114-118 | As long as nobody overstayed, a release deletes the releasing call's own guard, leaves its tenant without a holder and no other tenant's guard or call touched. |
| `InflightGuard.DeadCallersBlockForTheTtl` | backend/app/ai/cache.py:97-111 | Whatever happens after a caller died without releasing, its guard turns away every request of the tenant until its TTL is over and admits the first one after it. |
| `InflightGuard.OverstayingBreaksExclusion` | backend/app/ai/cache.py:97-118 | A witness: a call still running after `d` overlaps the next caller at `d` if and only if `d` has reached the TTL, and then its unconditional delete removes that caller's guard. |
| `InflightGuard.Redis.AcquireInflight` | backend/app/ai/cache.py:97-111 | SET NX with a TTL takes the step the interleavings are made of: acquired iff no unexpired guard. |
| `InflightGuard.Redis.ReleaseInflight` | backend/app/ai/cache.py:114-118 | An unconditional delete of the tenant's guard, again as the step of the interleavings. |
| `CacheKey.TenantsNeverShareKeys` | backend/app/ai/cache.py:38-56 | Two tenants never share a cache key, whatever the other segments contain. |
| `CacheKey.KeyIsInjective` | backend/app/ai/cache.py:38-56 | With the colon-free ids, digests and version the application uses, the key determines all six segments, whatever text a tenant configures as its model. |
| `CacheKey.KeysCollideOnlyByColons` | backend/app/ai/cache.py:38-56 | Two equal keys are keys of the same six segments if and only if the segments hold equally many colons each. |
| `CacheKey.ColonsMakeKeysAmbiguous` | backend/app/ai/cache.py:38-56 | A colon moved across a segment boundary lets two resources of one tenant share a key. |
| `ScannerBlock.UnwrapIsInverse` | backend/app/ai/explain.py:147-163 | Extracting from the built block returns exactly the body, closing tags in it included, if and only if the source attribute has no `>`. |
| `ScannerBlock.HashInputIsTheView` | backend/app/ai/explain.py:147-163 | What is hashed for the cache key is exactly the allowlisted view that was put in the prompt. |
| `ScannerBlock.ViewIs` | backend/app/ai/prompt_builder.py:54-172 | The view field by field: the sixteen allowlisted names and no other, the two free texts cut at 4000 characters and marked, the two dates printed, everything else as it is. |
| `ScannerBlock.SourceIs` | backend/app/ai/prompt_builder.py:308-315 | The block is labelled with the record's source, or `unknown` when that is missing or empty. |
| `ScannerBlock.SameBlockIffSameView` | backend/app/ai/prompt_builder.py:294-315 | Two records give the same block exactly when they agree on the allowlisted view. |
| `ScannerBlock.AgreeingRecordsSameView` | backend/app/ai/prompt_builder.py:150-172 | Records agreeing on the allowlisted names have the same view and source, whatever else they hold. |
| `ScannerBlock.TruncationMergesExactly` | backend/app/ai/prompt_builder.py:133-147 | Truncation identifies two texts exactly when both exceed 4000 characters with the same first 4000. |
| `BatchCost.EstimateBatchCost` | backend/app/ai/batch.py:144-157 | The accumulating loop computes half price of all counted inputs plus the worst-case outputs, rounded once. |
| `BatchCost.Prices` | backend/app/ai/explain.py:98-103 | 3 and 15 micro-dollars a token for Sonnet and every model not listed, 5 and 25 for Opus, and within half a micro-dollar of 0.8 and 4 for Haiku. |
| `BatchCost.EstimateIs` | backend/app/ai/batch.py:144-157 | The estimate is within half a micro-dollar, from both sides, of half of what the counted inputs and 1024 outputs a request cost. |
| `BatchCost.PricesArePositive` | backend/app/ai/explain.py:185-192 | No price is negative, and an answer with any output costs something. |
| `BatchCost.RoundHalfEven` | backend/app/ai/explain.py:192 | Rounding is within half a micro-dollar, ties to even. |
| `BatchCost.SpendAppends` | backend/app/ai/budget.py:41-57 | Month-to-date spend is additive over the audit log. |
| `BatchCost.OneMoreRow` | backend/app/ai/budget.py:41-57 | An audit row counts in full for its own tenant's AI calls of the month, and for nothing else. |
| `BatchCost.CapsAre` | backend/app/ai/budget.py:60-106 | The cap is reached exactly when the spend, with a batch's estimate, is not below it; without a cap never. |
| `BatchCost.BatchNeverOutrunsEstimate` | backend/app/ai/batch.py:144-157 | If each answered request, matched by id in any order, stays within its counted input and MAX_TOKENS output, the audited cost of K items exceeds the estimate by at most (K+2)/4 micro-dollars of rounding. |
| `BatchCost.SubmittedBatchStaysUnderCap` | backend/app/ai/budget.py:83-106 | A batch that passed the fail-closed check, each answer audited once in any order and nothing else spent, keeps the month below cap plus that rounding. |
| `BatchCost.AnyResultLast` | backend/app/ai/batch.py:503-519 | The audited total does not depend on the order the results come in. |
| `BatchSpend.WorkNeverOutrunsEstimate` | backend/app/ai/batch.py:144-157 | Working a submitted job through once charges at most its estimate plus rounding, in whatever order the provider streams the lines. |
| `BatchSpend.PollingChargesPerVisit` | backend/app/ai/batch.py:402-453 | In every run, interrupted and overlapping polls included, the audit rows charge a tenant at most one full working-through of the job for every visit to one of its jobs. |
| `BatchSpend.UndisturbedPollingChargesOnce` | backend/app/ai/batch.py:373-453 | After any history, interrupted and overlapping polls included, undisturbed polling adds to a tenant's month at most one full working-through of its one job that was not completed yet. |
| `BatchSpend.SentBatchPolledOnceStaysUnderCap` | backend/app/ai/batch.py:259-290 | From submission to the month's sum over the polled audit rows, after any history of the table: a batch the check let through, polled undisturbed while the tenant's other jobs are completed, keeps the month below cap plus rounding. |
| `BatchWork.BatchJudgesLikeFinalAttempt` | backend/app/ai/batch.py:489-501 | The single-pass gate accepts, caches and audits exactly as the interactive engine does on a final attempt of a view without a denylist. |
| `BatchWork.LineActsAt` | backend/app/ai/batch.py:402-449 | Every line's cache write and audit row sit together, in line order, in the job's work. |
| `BatchWork.RecognisedLineIsLogged` | backend/app/ai/batch.py:402-444 | Every line with a known hash and a recognised type has an audit row about its own finding at its own place of the job's work. |
| `BatchWork.LineRowSays` | backend/app/ai/batch.py:415-519 | A line's audit row, status by status: its tenant, model and finding, the answer's tokens, and half the model's price exactly when it was accepted. |
| `BatchWork.AcceptedRowPrice` | backend/app/ai/batch.py:503-507 | That price in figures, and never nothing for an answer with any output. |
| `BatchWork.PlacesAreOwn` | backend/app/ai/batch.py:402-444 | No two lines share an audit place, whatever their custom ids. |
| `BatchProtocol.RunKeepsInv` | backend/app/ai/batch.py:373-460 | In every interleaving of any number of pollers, submissions, exceptions and crashes: completed jobs are done in full, a job in hand is done up to its poller's place, and the cache holds only initial or asked-for entries. |
| `BatchProtocol.CompletionNeverReverts` | backend/app/ai/batch.py:451-453 | Completion marks, job rows and cached keys are never taken back. |
| `BatchProtocol.CompletedMeansEveryLineAudited` | backend/app/ai/batch.py:402-453 | A job is completed only when every line with a known hash and a recognised type has an audit row at its own place, which no other line shares. |
| `BatchProtocol.CompletedMeansAcceptedCached` | backend/app/ai/batch.py:402-453 | And only when every accepted line's key is cached with a payload asked for under that key. |
| `BatchProtocol.FinalCacheIsDetermined` | backend/app/ai/batch.py:373-460 | Once every job is completed the cache is the initial one overwritten by what the jobs ask for. |
| `BatchProtocol.ResumingChangesNothing` | backend/app/ai/batch.py:373-460 | Any two runs over the same jobs, interrupted and repeated however, end with the same cache; one uninterrupted poll is such a run. |
| `BatchRaces.ScheduleFreeIffAgreeing` | backend/app/ai/batch.py:373-460 | The final cache is independent of the schedule if and only if no two results claim one key with different payloads. |
| `BatchRaces.AnyClaimCanWin` | backend/app/ai/batch.py:373-460 | Otherwise a poller that stalls right before its write can make any of the claims the final one. |
| `BatchAudits.DistinctQuestionsAgree` | backend/app/ai/batch.py:411-413 | Colon-free ids, digests and version, jobs about distinct questions and one answer per custom id are enough for that. |
| `BatchAudits.CachedOnlyIfAccepted` | backend/app/ai/batch.py:489-501 | In every run a cached payload was there at first or is an answer some line was given and every gate accepted, under that line's key. |
| `BatchAudits.OneRowPerVisit` | backend/app/ai/batch.py:402-453 | In every run a line gets at most one audit row per visit to its job. |
| `BatchAudits.UndisturbedPollsAuditOnce` | backend/app/ai/batch.py:373-453 | After any history: when the polls since a job was first looked at were neither interrupted nor overlapping, every recognised line of the completed job has exactly one row. |
| `BatchAudits.AuditedOnceIffVisitedOnce` | backend/app/ai/batch.py:373-453 | At rest after any run without exceptions and crashes, overlapping polls included, a recognised line has exactly one audit row if and only if its job was visited exactly once. |
| `BatchAudits.OneRowForEachVisit` | backend/app/ai/batch.py:402-453 | There the rows at a line's place are exactly one for each visit to its job. |
| `BatchAudits.OverlapAuditsTwice` | backend/app/ai/batch.py:375-381 | A schedule without any interruption that visits a job twice: it is looked up again by id without its status, so a poll that selected it earlier audits a completed job a second time. |
| `BatchPoller.Store.PollPendingBatches` | backend/app/ai/batch.py:329-460 | The imperative poller, under any faults, performs a run of the protocol; it completes only jobs whose key is there and whose batch has ended, and left alone it completes all of them in an undisturbed run. |
| `BatchPoller.Store.PollJob` | backend/app/ai/batch.py:377-460 | One job: passed over without a key or before its batch ended, otherwise worked through; an exception gives up this job only. |
| `BatchPoller.Store.ListInProgress` | backend/app/ai/batch.py:375 | The ids of exactly the jobs still in progress, each once, in any order. |
| `BatchPoller.Store.FinishJob` | backend/app/ai/batch.py:402-453 | Every line in order, then the completion mark; the mark is set only when all of it went through. |
| `BatchPoller.Store.ProcessLine` | backend/app/ai/batch.py:402-449 | An unknown id or type is skipped, any other line advances the visit by exactly its own work. |
| `BatchPoller.Store.AuditNonSucceeded` | backend/app/ai/batch.py:299-326 | Errored, canceled and expired lines get one audit row at zero cost and never touch the cache. |
| `BatchPoller.Store.ValidateAndCache` | backend/app/ai/batch.py:463-520 | An accepted answer is cached and then audited at half price, anything else only audited at zero, each durable at once. |
| `BatchPoller.SmoothSoleRunIsCalm` | backend/app/ai/batch.py:373-460 | Without exceptions and crashes the steps of one poller form an undisturbed run. |
| `BatchPrewarm.Submitter.RunPrewarm` | backend/app/ai/batch.py:200-296 | The night leaves the desk that handling every tenant in turn prescribes, whatever exceptions occur. |
| `BatchPrewarm.Submitter.CollectRequests` | backend/app/ai/batch.py:215-252 | The loop collects exactly the findings whose key is not cached, in order, and freezes their digests by id. |
| `BatchPrewarm.Submitter.PrewarmTenant` | backend/app/ai/batch.py:205-296 | One tenant: nothing without a key or due findings, only a zero-cost audit row over budget, otherwise one batch with all due findings and one job row. |
| `BatchPrewarm.DueAmongExactly` | backend/app/ai/batch.py:217-252 | A finding is asked about if and only if its record exists and its key is not cached. |
| `BatchPrewarm.TenantsDoNotDisturbEachOther` | backend/app/ai/batch.py:204-296 | The new job rows are those every tenant's turn would have added alone, whatever hits the others. |
| `BatchPrewarm.SentBatchFitsTheBudget` | backend/app/ai/batch.py:259-278 | A sent batch keeps the tenant's month under its cap plus rounding however its items turn out and in whatever order they are audited. |
| `BatchPrewarm.SentExactlyWhen` | backend/app/ai/batch.py:205-290 | A turn sends a batch exactly when the tenant has a key and something due, nothing failed before, and spend plus estimate is below the cap; the batch asks about the due findings, one id each, in order. |
| `BatchPrewarm.SubmitAndPollAgree` | backend/app/ai/batch.py:225-252 | The poller rebuilds from the job row exactly the key the submitter found missing. |
| `BatchPrewarm.AnsweredFindingsAreSkipped` | backend/app/ai/batch.py:225-235 | After an accepted result, a finding with the same digest, model and prompt version is skipped by every later night, whatever happens meanwhile. |
| `BatchPrewarm.SkippedIffAnswered` | backend/app/ai/batch.py:225-235 | Once everything is completed, a finding that was due is skipped next time if and only if some result was accepted under its key. |
| `PasswordPolicy.MergePolicyFloor` | backend/app/auth/password.py:44-62 | The loop folds the floor into the tenant's effective policy key by key; `MergedAt` says what that gives. |
| `PasswordPolicy.MergedAt` | backend/app/auth/password.py:44-62 | Every key the floor sets gets the stricter value, every other key keeps the tenant's. |
| `PasswordPolicy.MergedAcceptsWhatBothAccept` | backend/app/auth/password.py:44-62 | For a six-key floor, accepting under the merged policy is accepting under both policies, reuse window included. |
| `PasswordPolicy.FloorIsConjunctionIff` | backend/app/auth/password.py:44-62 | For a floor with any keys: accepting under the merged policy is accepting under both, for every password, history and character set, if and only if the floor sets min_length or the tenant's is at least the default 8. |
| `PasswordPolicy.FullFloorIsJoin` | backend/app/auth/password.py:44-62 | Merging a six-key floor is the pointwise stricter of the two policies. |
| `PasswordPolicy.ForcedRotationIsFull` | backend/app/auth/password.py:34-41 | The forced-rotation floor sets all six keys. |
| `PasswordPolicy.PartialFloorIsWeaker` | backend/app/auth/password.py:44-62 | A witness: a tenant minimum of 6 under a floor with a history count only admits what the floor's own effective policy refuses. |
| `PasswordPolicy.LongerWindowCatchesMore` | backend/app/auth/password.py:120-130 | The reuse check over the larger of two windows is the disjunction of the two checks. |
| `PasswordPolicy.ValidIff` | backend/app/auth/password.py:103-117 | A password passes if and only if it is long enough and some position of it is in each required class. |
| `PasswordPolicy.ErrorNamesFirstUnmet` | backend/app/auth/password.py:103-117 | The error names the first demand that is not met, in the order length, upper case, lower case, digit, symbol. |
| `PasswordPolicy.ReusedMeans` | backend/app/auth/password.py:120-130 | Reuse is a match at one of the last `count` positions of the history. |
| `PasswordPolicy.ForcedFloorIsStrong` | backend/app/auth/password.py:34-41 | Whatever the tenant's policy, what passes under the forced floor has twelve characters and one of each class. |
| `PasswordPolicy.ForcedFloorLooksBackFive` | backend/app/auth/password.py:34-41 | And differs from each of the last five passwords. |
| `PasswordPolicy.CheckPasswordHistory` | backend/app/auth/password.py:120-130 | The loop answers true exactly when one of the last `count` stored hashes matches. |
| `PasswordHistory.User.ChangePassword` | backend/app/auth/password.py:249-302 | Which check refuses, in which order; that a refusal changes nothing while success saves the old hash; and that an accepted password meets every demand and is strong when the change was forced. |
| `PasswordHistory.User.Replace` | backend/app/auth/password.py:289-298 | Saving the old hash and truncating keeps the stored list equal to the replacement log truncated at every step. |
| `PasswordHistory.StoredReaches` | backend/app/auth/password.py:289-296 | The stored list is at least w long if and only if every change, together with the changes after it, kept w entries. |
| `PasswordHistory.ResetDesk.ConfirmPasswordReset` | backend/app/auth/password.py:366-418 | Every outcome and its effect on the token table and on the one user; no other user changes. |
| `PasswordHistory.StoredIsRecent` | backend/app/auth/password.py:289-298 | The stored list is always the newest part of the full history. |
| `PasswordHistory.FixedCountKeepsExactly` | backend/app/auth/password.py:289-296 | Under a fixed count it is exactly the last max(count, 10) replaced hashes. |
| `PasswordHistory.TruncationIsInvisible` | backend/app/auth/password.py:284-296 | The reuse check on the stored list equals the check on the full history whenever every change, together with those after it, kept the window asked for; the list growing back after a raised count is included. |
| `PasswordHistory.WindowSurvivesIff` | backend/app/auth/password.py:284-296 | The last q entries of the stored list are the last q of the full history if and only if no change kept too little for them. |
| `PasswordHistory.ReuseCheckIsExactIff` | backend/app/auth/password.py:284-296 | Over a history of different passwords, stored and full history refuse the same passwords if and only if no change kept too little. |
| `PasswordHistory.SteadyCountsRemember` | backend/app/auth/password.py:284-296 | A fixed count, falling counts and any counts up to 10 always keep enough. |
| `PasswordHistory.RaisedCountForgets` | backend/app/auth/password.py:284-296 | After changes under one count, a window q misses a reused password if and only if both q and the number of changes exceed max(count, 10). |
| `RiskCurveExact.NormalizeIsTheRoundedCurve` | backend/app/assets/risk_score.py:74-88 | The integer power comparisons give the real power/log curve, rounded half to even and capped at 100, for every raw sum. |
| `RiskCurve.NormalizeIsMonotone` | backend/app/assets/risk_score.py:74-88 | The curve never falls, across the knee included, and never exceeds 100. |
| `RiskCurve.KneeIsSharp` | backend/app/assets/risk_score.py:63-88 | A raw sum scores at most 45 if and only if it is at most 120. |
| `RiskCurve.SaturatesAtMax` | backend/app/assets/risk_score.py:71-88 | From 1500 on the score is 100. |
| `RiskCurve.AddingAFindingNeverLowers` | backend/app/assets/risk_score.py:91-145 | Adding a finding never lowers any asset's score. |
| `RiskCurve.RawScoreIs` | backend/app/assets/risk_score.py:44-54 | For any table: 40 for every open CRITICAL finding of the asset, 20 for HIGH, 5 for MEDIUM, 1 for LOW, nothing for INFO; doubled by an exploit, tripled by KEV, sixfold by both; no other finding counts. |
| `RiskCurve.WorseFindingNeverLowers` | backend/app/assets/risk_score.py:91-145 | Raising a severity, setting exploit or KEV, or reopening never lowers a score; read backwards, closing never raises one. |
| `RiskCurve.ExploitedCriticalIsCritical` | backend/app/assets/risk_score.py:44-88 | An open, exploitable, known-exploited CRITICAL puts its asset at 81 or more. |
| `RiskCurve.LowVolume` | backend/app/assets/risk_score.py:63-68 | n plain LOW findings stay within 45 if and only if n is at most 120, which refutes the comment that volume of low findings cannot pass it. |
| `RiskCurve.RiskTable.ComputeRiskScores` | backend/app/assets/risk_score.py:91-154 | Every asset of the tenant gets the curve of its own open findings, no other tenant's asset changes, and the count is right. |

## Left out

- ExposureService.Session.SetGroupOverride: excludes a transaction stamp equal to the stamp at which another group set the same field to a different value; on such a tie the code lets the row order decide (`ExposureCatalog.LoopResolves`, `ExposureCatalog.ResolutionIsUniqueIff`), so no rule is followed by every later run.
- ExposureService.Session.AddMember: does not model the router's own audit row for the request, and group rename and listing are left out because they touch no exposure field.
- ExposureRuns.RunsAreCoherent: does not include the Intune sync, which replaces `mdm_details` without re-running inference and so makes an asset stale the way a group deletion does.
- ExposureModel.WritesAreLegal: does not model Unicode case folding and whitespace; lower-casing and stripping are ASCII.
- RateLimiter.TenantRateLimit.Dispatch: does not model the fail-open answer on a Redis error, nor how the tenant key is read from the token; a key counts as expired at exactly its deadline.
- KeyRotation.Session.Rotate: does not model a commit whose acknowledgement is lost, and the cipher is ideal in that a token opens only under the key that sealed it.
- KeyRotationRace.NewestCredentialsSurviveIff: writes are those committed before the rotation's own update reaches the row; a later one waits for the commit and then stays under the old key. A connector deleted in between, which makes the commit fail, is not modelled.
- ExplainEngine.RunExplain: an effect that raised or was cancelled counts as not having happened, so an acquire, cache write or dispatch that took place remotely while its reply was lost is not modelled; nor is the cache key of the entry written, which `ScannerBlock` and `CacheKey` cover. The schema, leak-marker and denylist gates are arbitrary predicates.
- ExplainEngine.ChunkForReplay: event framing and JSON text are left out.
- ScannerBlock.HashInputIsTheView: models the vulnerability view; the host, remediation and prioritization views build their blocks the same way. SHA-256 is an uninterpreted digest and JSON any encoding with an inverse.
- InflightGuard.TimelyRunsExclude: only Redis time counts; a caller whose client gave up but whose process goes on is a living holder.
- BatchProtocol.ResumingChangesNothing: does not model cache expiry (30 days), deletion of job rows, or other writers of the same keys; the provider's result lines for a batch are the same whenever they are read.
- BatchPoller.Store.PollPendingBatches: one call runs alone; overlap of calls is covered by the interleavings of `BatchProtocol`. A missing job row cannot occur because rows are never deleted here.
- BatchPrewarm.Submitter.RunPrewarm: does not model the administrators' notification; a batch the provider took but whose row was never committed is recorded as sent and never polled.
- BatchAudits.AuditedOnceIffVisitedOnce: is about runs without exceptions and crashes; with them a visit may stop short of a line, and only `BatchAudits.OneRowPerVisit` holds.
- BatchPrewarm.SentBatchFitsTheBudget: does not cover duplicate submission while an earlier batch is still in progress, which the code does not prevent, nor spending by other calls of the tenant in the meantime.
- BatchCost.BatchNeverOutrunsEstimate: arithmetic is exact; binary floating point is left out.
- PasswordHistory.User.ChangePassword: bcrypt is an ideal salted hash without its 72-byte limit; revoking sessions and the similarity check against a forbidden password are left out.
- RiskCurveExact.NormalizeIsTheRoundedCurve: the curve is over the reals; the float evaluation near a rounding boundary is left out.
- HTTP connectors, OIDC, mail, PDF and CSV export, certificates, migrations, seeds and the frontend are I/O or presentation.
- Role checks, pagination, calibration percentages and log redaction would only add easy members.
