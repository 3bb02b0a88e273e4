# Verification of the voice-agent backend's shared-state logic

This project models the parts of the backend in which several workers, sessions or
requests share rows, and proves what those parts promise over whole runs. A table is
a map of rows; each committed statement or transaction is one step; the clock, the
drawn tokens and whatever other sessions commit meanwhile are explicit.

Each module pairs two views of a component. A class holds the tables and its methods
follow the source's branches; their contracts state the exact answer and the exact new
tables, errors included. A transition system lets any number of callers interleave
those steps, and the lemmas are about every run of it. Where a property holds only
under a condition, the condition is part of the theorem and a witness run shows that
it is needed.

| file | component |
|---|---|
| ConfigurationLease.dfy | insert-or-takeover lease with fencing tokens |
| ConfigurationUpsert.dfy | compare-and-set configuration saves with racing first inserts |
| WebhookDelivery.dfy | delivery leases, outcomes, retries and the sweeper |
| CampaignQueue.dfy | claiming queued runs with FOR UPDATE SKIP LOCKED |
| CampaignRedial.dfy | recursive retry trees, redial candidates and seeding |
| WorkflowVersions.dfy | draft, publish, discard, revert |
| WorkflowRaces.dfy | the same with reads and commits of several sessions overlapping |
| TelephonyCredentials.dfy | nested fields, masking, restoring, server-managed fields |
| CredentialDictionaries.dfy | the nested write in place, on heap dictionaries |
| InboundRouting.dfy | numbers, trunks, configurations and the inbound lookup |
| RoutingRaces.dfy | the conflict guard and its write as separate commits |
| TextSession.dfy | revision-checked text sessions and merged run records |
| RunFilters.dfy | compiling run filters to SQL conditions |
| RunListing.dfy | total-order paging against the full report |
| AgentTriggers.dfy | synchronising trigger paths |
| KnowledgeSearch.dfy | positional parameters of the similarity query |
| FailureCodes.dfy | failure codes, ownership and retry policy |
| Queries.dfy | ORDER BY and LIMIT over the ids of a table |
| Common.dfy | options, results and sequence helpers |

`dafny verify dfyconfig.toml` checks the whole project.

## Model

| member | source | states |
|---|---|---|
| `ConfigurationLease.OrganizationConfigurationClient.ClaimConfigurationLease` | api/db/organization_configuration_client.py:150-214 | The two commits of a claim: the insert wins a free key at once; otherwise, after whatever other sessions committed in between, the takeover succeeds exactly on a pending row older than the claimant allows, and the caller gets its token back exactly then; the row it leaves is stamped with the clock read before both commits |
| `ConfigurationLease.OrganizationConfigurationClient.CompleteConfigurationLease` | api/db/organization_configuration_client.py:216-238 | Completion writes only a row still pending under the caller's own token |
| `ConfigurationLease.OrganizationConfigurationClient.ReleaseConfigurationLease` | api/db/organization_configuration_client.py:240-258 | Release deletes only a row still pending under the caller's own token, and no other key |
| `ConfigurationLease.StepRefinesLock` | api/db/organization_configuration_client.py:165-258 | One committed statement of any caller is exactly one step of the abstract lock Free / Held(token) / Done of every key: an insert on a free key wins it and changes no other lock, a takeover wins exactly a held lock that has gone stale, complete and release act for the holder alone; and a claim is answered with its token exactly when the lock is then held by it |
| `ConfigurationLease.RunRefinesLock` | api/db/organization_configuration_client.py:165-258 | Every interleaving of any number of callers, insert and takeover being separate steps, is a run of that exact lock, a takeover displacing its holder exactly when that claim has gone stale |
| `ConfigurationLease.WinnersAreHolders` | api/db/organization_configuration_client.py:150-164 | In every run a caller has been answered with its token if and only if at some moment of the run it was the current holder |
| `ConfigurationLease.CompletedForever` | api/db/organization_configuration_client.py:191-199 | Done is absorbing: a completed row is never written again |
| `ConfigurationLease.DisplacedForever` | api/db/organization_configuration_client.py:150-164 | A winner that stops being the holder never becomes it again |
| `ConfigurationLease.DisplacedHolderIsFenced` | api/db/organization_configuration_client.py:216-258 | Whatever a displaced holder completes or releases later, in any continuation, changes nothing |
| `ConfigurationLease.HolderKeepsLeaseWithinWindow` | api/db/organization_configuration_client.py:165-214 | While the clock is within the contenders' waiting time of the holder's claim timestamp nobody displaces it, although contenders read the clock before their commits |
| `ConfigurationLease.TimelyCompletionTakesEffectOnce` | api/db/organization_configuration_client.py:216-238 | A holder that completes within that time has its completion take effect, and the row is final from then on |
| `ConfigurationLease.ExactlyOneWinner` | api/db/organization_configuration_client.py:150-164 | A burst of concurrent claims on a free key has at most one winner, has one as soon as anybody is past its insert, and the key has a row exactly when somebody won |
| `ConfigurationLease.ClaimsAreSpaced` | api/db/organization_configuration_client.py:165-214 | Within one life of a row successive claim timestamps differ by more than the later claimant's staleness limit, and the last claim is the current holder's |
| `ConfigurationLease.LateInsertIsDisplacedAtOnce` | api/db/organization_configuration_client.py:165-214 | The waiting time runs from the clock reading, not the commit: a run in which a late insert is displaced at the very instant it won |
| `ConfigurationUpsert.OrganizationConfigurationClient.UpsertConfiguration` | api/db/organization_configuration_client.py:48-124 | Exactly when a guarded save commits (both expectations hold and no racing first insert), the document it then stores, that every rejection changes nothing of its own, and exactly when each of the four errors is raised |
| `ConfigurationUpsert.StepKeepsInvariant` | api/db/organization_configuration_client.py:48-124 | Every read, open, select and commit of any attempt keeps the invariant relating snapshots, write stamps, the row lock and the commit log |
| `ConfigurationUpsert.StoredValueIsFoldOfCommits` | api/db/organization_configuration_client.py:48-124 | In every run of read-derive-save attempts with distinct write timestamps the stored value is the committed changes folded in commit order: no update is lost |
| `ConfigurationUpsert.GuardPassesExactlyOnCurrentSnapshot` | api/db/organization_configuration_client.py:75-99 | The guard lets an attempt through if and only if its whole snapshot, absence included, is still the stored row |
| `ConfigurationUpsert.OnlyCommitsWrite` | api/db/organization_configuration_client.py:100-124 | Every event either commits one attempt and logs its change, or leaves row and log alone |
| `ConfigurationUpsert.OneLogEntryPerCommit` | api/db/organization_configuration_client.py:100-124 | In every run the log has one entry per committed attempt |
| `ConfigurationUpsert.ReusedTimestampLosesAnUpdate` | api/db/organization_configuration_client.py:83-99 | Distinct timestamps are needed: a run in which a reused timestamp hides an update, which is then overwritten |
| `WebhookDelivery.WebhookDeliveryClient.CreateWebhookDelivery` | api/db/webhook_delivery_client.py:23-97 | Get-or-create on (run, node): each of the four refusals, a missing node id among them, exactly when its check is the first to fail and with nothing changed; an existing row returned unchanged, otherwise one new waiting row |
| `WebhookDelivery.WebhookDeliveryClient.ClaimWebhookDelivery` | api/db/webhook_delivery_client.py:110-148 | A claim succeeds exactly on a waiting row that is unscheduled or due at the clock reading, and moves its time to that reading plus the lease; otherwise nothing changes |
| `WebhookDelivery.WebhookDeliveryClient.MarkWebhookDeliverySucceeded` | api/db/webhook_delivery_client.py:150-166 | Any existing row, whatever its status, becomes succeeded with the attempt given and no next time; nothing else changes |
| `WebhookDelivery.WebhookDeliveryClient.ScheduleWebhookDeliveryRetry` | api/db/webhook_delivery_client.py:168-190 | Any existing row, whatever its status, becomes pending again with the attempt and time given; nothing else changes |
| `WebhookDelivery.WebhookDeliveryClient.MarkWebhookDeliveryDeadLetter` | api/db/webhook_delivery_client.py:192-217 | Any existing row, whatever its status, is dead-lettered with the attempt given and no next time; nothing else changes |
| `WebhookDelivery.TimelyStepKeepsInvariant` | api/db/webhook_delivery_client.py:110-213 | If the outcomes of one delivery are recorded strictly before their worker's lease ends, each step keeps, whatever happens to other deliveries: one possessor, its lease end in the row, attempts below the ceiling while waiting |
| `WebhookDelivery.TimelyRunsKeepInvariant` | api/db/webhook_delivery_client.py:110-213 | So in every reachable state of such a run at most one worker possesses that delivery |
| `WebhookDelivery.TerminalForever` | api/db/webhook_delivery_client.py:150-213 | In such a run the succeeded or dead-lettered row is never written again |
| `WebhookDelivery.AttemptCountIsRecords` | api/tasks/webhook_delivery.py:214-242 | In such a run attempt_count equals the number of outcomes recorded for the delivery and never exceeds max_attempts |
| `WebhookDelivery.StatusTellsReplies` | api/tasks/webhook_delivery.py:254-382 | In such a run the status tells the replies: succeeded if and only if a request was answered with a 2xx status; dead-lettered if and only if one met a failure not worth retrying or all max_attempts met failures that are; pending if and only if all were worth retrying and attempts are left. No reply is recorded after a final one |
| `WebhookDelivery.RecordWritesOutcome` | api/tasks/webhook_delivery.py:214-382 | What recording a reply leaves in the row, field by field: 2xx succeeds, 408, 425, 429, 500, 502, 503, 504 and connection errors are retried after the delay until the attempts are used up, everything else is dead-lettered |
| `WebhookDelivery.TerminalRowChangesExactlyOnRecord` | api/db/webhook_delivery_client.py:110-217 | In any state a step changes a succeeded or dead-lettered row if and only if it records an outcome by a worker of that delivery that differs from what the row says; no claim, however late, touches it |
| `WebhookDelivery.RewrittenTerminalHasLateRecord` | api/db/webhook_delivery_client.py:150-217 | Whenever any run writes such a row again, that record or an earlier one of the delivery was made at or after the end of its worker's lease |
| `WebhookDelivery.TimelyRecordRewritesTerminal` | api/db/webhook_delivery_client.py:150-217 | It need not be the rewriting record: a run in which a late record finishes a delivery whose lease has been taken over, and the new holder's timely record reopens it |
| `WebhookDelivery.ClaimsAreOneLeaseApart` | api/db/webhook_delivery_client.py:110-148 | Without any discipline, two successful claims with no retry recorded between them are still at least one lease apart |
| `WebhookDelivery.WaitingIffScheduled` | api/db/webhook_delivery_client.py:65-79 | In every reachable state a delivery is pending exactly when scheduled_for is set |
| `WebhookDelivery.LateRecordReopensDelivery` | api/db/webhook_delivery_client.py:168-190 | The discipline is needed: a run in which a late record turns a succeeded delivery back into a pending one |
| `WebhookDelivery.DueIsClaimable` | api/db/webhook_delivery_client.py:128-139 | On every reachable state the sweeper's due set equals the claimable set, although the predicates differ |
| `WebhookDelivery.GetDueWebhookDeliveries` | api/db/webhook_delivery_client.py:219-244 | One page is the first due ids above the cursor, in id order, and is short only when no more are due |
| `WebhookDelivery.SweepWebhookDeliveries` | api/tasks/webhook_delivery.py:385-423 | While rows change between pages the sweep terminates, never repeats an id, takes only rows due at some page, and takes every row that stays due throughout |
| `CampaignQueue.CampaignClient.ClaimQueuedRunsForProcessing` | api/db/campaign_client.py:775-852 | What one claim transaction returns and writes, in terms of the scheduled times: due unlocked retries of the campaign by non-decreasing time, one being left over only when limit retries no later than it were taken; then unlocked unscheduled runs up to the rest; all distinct, and exactly those rows marked as processing |
| `CampaignQueue.CampaignClient.ReturnProcessingQueuedRunsWithoutWorkflow` | api/db/campaign_client.py:554-581 | Exactly the given processing rows without a workflow run go back to queued, and their number is returned |
| `CampaignQueue.StepKeepsInvariant` | api/db/campaign_client.py:775-852 | Every step of concurrent claim transactions keeps: locked rows are still queued, open transactions share no row, each selection is distinct, bounded and earliest first |
| `CampaignQueue.ConcurrentClaimsAreDisjoint` | api/db/campaign_client.py:775-852 | Transactions open at the same time never select the same run |
| `CampaignQueue.RetriesComeFirst` | api/db/campaign_client.py:790-845 | In every run, for every claim, at the moment of its first select: it takes only queued due retries that no open transaction had selected, by non-decreasing scheduled time; such a retry is left over only when the limit was filled with retries no later than it, and then no unscheduled run is taken |
| `CampaignQueue.ClaimsBalanceReturns` | api/db/campaign_client.py:554-581 | Conservation: over any run, claims of a queued run and returns of it balance against its first and last state |
| `CampaignQueue.ClaimedOncePerReturn` | api/db/campaign_client.py:775-852 | A run is claimed at most once more than it was put back |
| `CampaignRedial.RunTree` | api/db/campaign_client.py:350-360 | The recursive query, as the database evaluates it, terminates for any parent links and pairs a run with a root exactly when its parents inside the campaign lead to that root, each pair once |
| `CampaignRedial.DepthIsBounded` | api/db/campaign_client.py:350-360 | No path down from a root is longer than the table, even when other rows form parent cycles |
| `CampaignRedial.TreesPartitionExactlyWhenAcyclic` | api/db/campaign_client.py:350-360 | No run is under two roots; and every run of the campaign is under one if and only if its parent links stay in the campaign and form no cycle |
| `CampaignRedial.LatestPerRoot` | api/db/campaign_client.py:361-371 | Exactly the roots with some call in their tree get a latest call, and it is one of the most recently created calls of the whole tree |
| `CampaignRedial.CampaignClient.GetRedialCandidates` | api/db/campaign_client.py:316-386 | The candidates are each root once, with its own source_uuid and context, for exactly the roots whose latest call over the whole tree carries voicemail_detected, telephony_no-answer or telephony_busy, as selected; none when no reason is selected |
| `CampaignRedial.CampaignClient.CreateRedialCampaign` | api/db/campaign_client.py:241-314 | The redial transaction: refused by a metadata reading that already names a redial, by a missing parent or by the unique constraint, changing nothing; otherwise the child with the three inherited settings, one first run for each candidate with its source_uuid and context, and the parent link |
| `CampaignRedial.SeedsAreUnique` | api/db/models.py:921-926 | In every reachable database the rows seeded from distinct roots of one campaign satisfy the unique constraint |
| `CampaignRedial.RedialNeverViolatesUniqueness` | api/db/campaign_client.py:261-297 | So a redial of such roots succeeds if and only if the parent exists and the metadata read does not already name a redial |
| `CampaignRedial.AnsweredCandidatesCanBeRedialed` | api/routes/campaign.py:823-860 | Every answer of the candidate query, in a reachable database, seeds a redial under the same condition |
| `CampaignRedial.StepKeepsInvariant` | api/services/campaign/campaign_orchestrator.py:235-264 | Every way rows come about (campaigns, roots, retries, calls, redials) keeps: rows are unique, roots are at retry 0, a retry is one step after a run of its own campaign |
| `CampaignRedial.ReachableTreesPartition` | api/db/campaign_client.py:350-360 | In every reachable database each campaign's trees partition its runs, and a run's depth in its tree is its retry count |
| `CampaignRedial.SecondRedialNeedsAStaleReading` | api/db/campaign_client.py:261-266 | After a redial a second one is refused from the current metadata and goes through from the earlier reading |
| `CampaignRedial.CreatedRows` | api/services/campaign/campaign_orchestrator.py:235-264 | A retry is one more than the run it retries, of its campaign, under it; a new subscriber starts at retry 0 |
| `WorkflowVersions.WorkflowClient.NextVersionNumber` | api/db/workflow_client.py:14-22 | One more than the largest version number of the workflow, or 1 |
| `WorkflowVersions.WorkflowClient.CreateWorkflow` | api/db/workflow_client.py:24-69 | A new workflow with one published current version 1 that it releases |
| `WorkflowVersions.WorkflowClient.SaveWorkflowDraft` | api/db/workflow_client.py:71-146 | Patches the draft in place, keeping each field that is not given, or inserts the next version as a draft of the patched published content; legacy columns follow the draft, no other version changes; fails exactly for an unknown workflow |
| `WorkflowVersions.WorkflowClient.PublishWorkflowDraft` | api/db/workflow_client.py:148-202 | The draft becomes published and current at the time given with its content as it was, the published version is archived, pointer and legacy columns follow; fails exactly without a draft, changing nothing |
| `WorkflowVersions.WorkflowClient.DiscardWorkflowDraft` | api/db/workflow_client.py:204-226 | Deletes the draft; fails exactly without one, changing nothing |
| `WorkflowVersions.WorkflowClient.RevertToVersion` | api/db/workflow_client.py:228-284 | Inserts the source version's content as the next draft and changes no other version and no pointer; each refusal exactly when it applies, changing nothing |
| `WorkflowVersions.StepKeepsInvariant` | api/db/workflow_client.py:14-284 | Every operation keeps, for every workflow, the numbering, the single published and current version, the released pointer and the single top-numbered draft |
| `WorkflowVersions.RunsKeepOnePublishedVersion` | api/db/workflow_client.py:14-284 | In every state of every sequence of serial transactions: versions are exactly 1..n, one version is published, it is the released and the only current one, and a draft can only be the n-th |
| `WorkflowVersions.PublishedContentIsImmutable` | api/db/workflow_client.py:93-128 | Over any operations a version that was ever published keeps its content, number and workflow |
| `WorkflowVersions.RevertThenPublishRestores` | api/db/workflow_client.py:228-284 | Reverting to any version and publishing makes the live content equal to that version's, under a new version, and loses or alters no earlier one |
| `WorkflowVersions.FirstSaveStartsFromLive` | api/db/workflow_client.py:101-136 | The first save after a publication makes a draft each field of which is the one given, or else that of the version the released pointer names |
| `WorkflowVersions.LaterSaveKeepsOtherFields` | api/db/workflow_client.py:93-100 | A further save changes the given fields of the draft and nothing else |
| `WorkflowVersions.PublishedContentIsLastSaved` | api/db/workflow_client.py:71-202 | Over any operations that only save the workflow, whatever happens to others, publishing makes each live field the last one given since the previous publication and leaves the live fields that no save gave |
| `WorkflowVersions.EmptySaveThenPublishKeepsLive` | api/db/workflow_client.py:71-202 | An empty save and a publication leave the live content as it was |
| `WorkflowRaces.SaveAtOnceIsSerial` | api/db/workflow_client.py:71-146 | A save split into its reads and its commit is the serial save when nothing comes between |
| `WorkflowRaces.RevertAtOnceIsSerial` | api/db/workflow_client.py:228-284 | So is a revert |
| `WorkflowRaces.PatchWritesWhatDiffers` | api/db/workflow_client.py:93-100 | A patch committed late writes the fields it gives with another value than the one it had read, over whatever is stored by then, and nothing else |
| `WorkflowRaces.InsertionRepeatsExactlyWhenTaken` | api/db/workflow_client.py:14-22 | A draft inserted after other commits makes two drafts if and only if the workflow has one by then, repeats a version number if and only if the number drawn has been taken, and never the former without the latter |
| `WorkflowRaces.InsertionIsCoherentExactlyWhenFree` | api/db/workflow_client.py:71-146 | It keeps the whole version invariant if and only if the number drawn is still free |
| `WorkflowRaces.RunIsCoherentExactlyWithoutStaleInsertions` | api/db/workflow_client.py:71-284 | However saves, reverts, publications and discards of any workflows overlap, a workflow keeps its version invariant in every state if and only if no insertion commits a number taken since it was drawn |
| `WorkflowRaces.PublishedContentChangesExactlyOnLatePatch` | api/db/workflow_client.py:93-128 | The content of a version once published changes at a step if and only if the step commits a patch planned while that version was the draft, of a field the reading and the row do not already agree with |
| `WorkflowRaces.RacingSavesMakeTwoDrafts` | api/db/workflow_client.py:71-146 | A run of two saves that read before either commits and leave two drafts with one number |
| `WorkflowRaces.LatePatchRewritesPublished` | api/db/workflow_client.py:93-128 | A run in which a save read before a publication commits after it and rewrites the published version |
| `TelephonyCredentials.GetNestedField` | api/routes/organization.py:664-670 | The loop over the dotted parts reads the value the path denotes, null on any break |
| `TelephonyCredentials.GetAfterSet` | api/routes/organization.py:664-682 | Reading a path just set gives the value set |
| `TelephonyCredentials.SetAfterSet` | api/routes/organization.py:673-682 | A second write to a path forgets the first |
| `TelephonyCredentials.SetOfGet` | api/routes/organization.py:664-682 | Writing back the non-null value read changes nothing |
| `TelephonyCredentials.GetIgnoresIncomparableSet` | api/routes/organization.py:664-682 | A write leaves every path alone that is neither a prefix nor an extension of it |
| `TelephonyCredentials.IncomparableSetsCommute` | api/routes/organization.py:673-682 | Writes to incomparable paths commute |
| `TelephonyCredentials.MaskRevealsOnlyTheTail` | api/services/configuration/masking.py:54-69 | A mask has the secret's length and shows its last four characters, of more than four, and stars elsewhere; so two secrets have the same mask if and only if they agree on length and that tail |
| `TelephonyCredentials.CredentialsForDisplay` | api/routes/organization.py:134-152 | For any stored tree, of any value types, and any sensitive paths, the loop over the sensitive fields and the loop over the server-managed ones compute the displayed tree |
| `TelephonyCredentials.EverySecretIsMasked` | api/routes/organization.py:134-144 | Every filled sensitive field is displayed as the mask of its text, whatever its type, and an empty one as it is |
| `TelephonyCredentials.PreserveMaskedFields` | api/routes/organization.py:655-661 | The loop over the sensitive fields replaces each resubmitted mask by the stored value, in turn, or raises, for stored values of any type |
| `TelephonyCredentials.RaisesExactlyOnUnmaskableSecret` | api/services/configuration/masking.py:54-86 | Restoring raises if and only if the client fills a sensitive field whose stored value is a number, true, or an object of more than four fields |
| `TelephonyCredentials.MasksHideSecrets` | api/routes/organization.py:134-144 | A client cannot tell apart two secrets with the same mask: the masked trees are equal, at whichever sensitive path the secret is stored |
| `TelephonyCredentials.PreserveKeepsNewSecrets` | api/routes/organization.py:655-661 | What a save leaves at each sensitive path: the stored secret where its mask came back, otherwise what the client sent; for a stored text the mask is exactly its displayed one |
| `TelephonyCredentials.PreserveUndoesMasks` | api/routes/organization.py:655-661 | For any pairwise incomparable sensitive paths restoring undoes masking exactly, wherever the displayed masks are the expected ones |
| `TelephonyCredentials.RunPreprocessHook` | api/routes/organization.py:693-728 | A server-managed field is in the saved tree if and only if the stored row has it and the account ids are equal (or the provider has none) or the field is not account-scoped, and it then has the stored value; every other field is the request's |
| `TelephonyCredentials.ResavingUnchangedIsIdentity` | api/routes/organization.py:134-152 | For every stored tree: display, resubmit unchanged, restore and hook returns it exactly, if and only if every displayed mask is the one the server compares with and the account id is not itself a stored server-managed field beside account-scoped ones |
| `TelephonyCredentials.ResavingStringSecretsIsIdentity` | api/routes/organization.py:134-152 | For stored secrets that are strings or empty, as every provider's are, only the hidden account id remains of that condition |
| `TelephonyCredentials.EditingOneFieldSavesIt` | api/routes/organization.py:975-990 | Display, change one field, resubmit, restore and hook stores exactly that change, to a secret or to any other field; a change of the account id also drops the account-scoped server-managed fields, and nothing else |
| `TelephonyCredentials.ListMasksReturn` | api/services/configuration/masking.py:54-75 | When the mask displayed for a stored list is the one the comparison expects |
| `CredentialDictionaries.Dict.SetNestedField` | api/routes/organization.py:673-682 | The in-place write of any value, dictionaries included, through nested dictionaries: the tree becomes the one with the path set, missing or non-dictionary nodes on the way are replaced, nothing off the path changes |
| `InboundRouting.TelephonyClient.FindInboundRoutingConflicts` | api/db/telephony_phone_number_client.py:224-270 | Exactly the numbers holding the same provider, account and one of the addresses outside the excluded configuration |
| `InboundRouting.TelephonyClient.AssertNoInboundRoutingConflict` | api/services/telephony/inbound_routing.py:88-142 | The guard lets a save through exactly when there is no account id, the account is unchanged, or no number conflicts |
| `InboundRouting.TelephonyClient.UpdateTelephonyConfiguration` | api/routes/organization.py:955-1015 | Answer and new tables of a configuration edit, guard included: only the credentials of that configuration change, and only when the answer is done |
| `InboundRouting.TelephonyClient.DeleteTelephonyTrunk` | api/routes/organization.py:1313-1355 | A trunk with numbers is refused; otherwise it is deleted and references to it are cleared |
| `InboundRouting.TelephonyClient.DeleteTelephonyConfiguration` | api/routes/organization.py:1061-1076 | Refused exactly when a campaign uses it, or as not found; otherwise it is deleted with exactly its own trunks and numbers |
| `InboundRouting.TelephonyClient.CreatePhoneNumber` | api/routes/organization.py:1406-1477 | Answer and new tables of creating a number: every refusal in its order, a conflict exactly for a routing conflict or an address the organization has; the row as requested, other defaults of the configuration cleared if it is the default, and all of it rolled back on a unique violation |
| `InboundRouting.TelephonyClient.UpdatePhoneNumber` | api/db/telephony_phone_number_client.py:314-354 | A trunk given is set, else clearing clears it, activation changes when given; not found exactly for an unowned configuration, number or trunk |
| `InboundRouting.TelephonyClient.SetDefaultCallerId` | api/db/telephony_phone_number_client.py:356-367 | In the configuration exactly this number is the default afterwards, and nothing else changes |
| `InboundRouting.TelephonyClient.CountPhoneNumbersForTrunk` | api/db/telephony_trunk_client.py:141-148 | The number of numbers attached to the trunk |
| `InboundRouting.TelephonyClient.FindInboundRouteByAccount` | api/db/telephony_phone_number_client.py:131-222 | For a complete lookup key, an active number of an active configuration with that provider, account and address, in the organization if one is given, if and only if there is one |
| `InboundRouting.UpdateKeepsUnambiguous` | api/routes/organization.py:970-1009 | A configuration edit that passes the guard leaves no two numbers with the same provider, account and address |
| `InboundRouting.CreateKeepsUnambiguous` | api/routes/organization.py:1413-1456 | Neither does a number that passes it |
| `InboundRouting.RequestKeepsOneDefault` | api/db/telephony_phone_number_client.py:394-405 | Every request keeps at most one default caller per configuration |
| `InboundRouting.RequestKeepsOwnTrunks` | api/routes/organization.py:1367-1376 | Every request keeps each number's trunk in its own configuration |
| `InboundRouting.ServingKeepsInvariant` | api/routes/organization.py:970-1009 | Every sequence of requests keeps all four invariants: resolved references and unique addresses, unambiguous routing keys, own trunks, one default |
| `InboundRouting.InboundRouteIsUnique` | api/db/telephony_phone_number_client.py:131-222 | After any sequence of requests the inbound lookup has at most one matching row |
| `InboundRouting.CreateRefusedExactlyWhenAmbiguous` | api/services/telephony/inbound_routing.py:88-142 | A creation is refused as a conflict if and only if inserting the number would make two numbers share a routing key |
| `InboundRouting.EditRefusedExactlyWhenAmbiguous` | api/services/telephony/inbound_routing.py:88-142 | An edit of a configuration is refused as a conflict if and only if the edited credentials would make two numbers share a routing key |
| `InboundRouting.PlainRequests` | api/routes/organization.py:888-1597 | Creating a configuration or trunk, activation and deleting a number touch one row, and only for its owner |
| `InboundRouting.AddingIsSafeExactlyWhenFree` | api/services/telephony/inbound_routing.py:88-142 | Inserting a number keeps the routing keys unambiguous if and only if no number has its provider, account and address |
| `InboundRouting.EditIsSafeExactlyWhenFree` | api/services/telephony/inbound_routing.py:88-142 | Replacing a configuration's credentials keeps them unambiguous if and only if no number outside it has the new account and one of its addresses |
| `InboundRouting.TrunkDeletionKeepsNumbers` | api/routes/organization.py:1325-1349 | Deleting a trunk, refused or not, leaves every number exactly as it was: clearing the references never finds one |
| `InboundRouting.DeletionsNeverUnassign` | api/routes/organization.py:1325-1349 | Deleting a trunk or a configuration never changes a number that remains |
| `RoutingRaces.ServedIsCheckedThenWritten` | api/routes/organization.py:970-1015 | A guarded request served at once is its check followed by its write |
| `RoutingRaces.WriteIsSafeExactlyWhenGuardStillPasses` | api/routes/organization.py:1413-1456 | A write separated from its check keeps the routing keys unambiguous if and only if its guard, asked again at that moment, would still pass |
| `RoutingRaces.StepKeepsInvariant` | api/routes/organization.py:970-1015 | Every check, write and unguarded request of any interleaving keeps references and addresses consistent and every open check's configuration the same |
| `RoutingRaces.RunIsSafeExactlyWithoutStaleWrites` | api/routes/organization.py:970-1015 | However requests interleave, the keys are unambiguous in every state if and only if no write takes effect whose guard would no longer pass |
| `RoutingRaces.StaleWriteMissedAnother` | api/services/telephony/inbound_routing.py:88-142 | Behind every such write something was committed since its check: some other number holds a key the request now gives, and at the check either it did not or the request would not have given that key's address |
| `RoutingRaces.RacingCreatesShareAKey` | api/routes/organization.py:1413-1456 | A run of two creations that both pass the guard before either is written, after which one inbound call matches two numbers |
| `TextSession.DBClient.EnsureWorkflowRunTextSession` | api/db/workflow_run_text_session_client.py:27-62 | Get-or-create: an existing session unchanged, a missing run refused, a new session with the given or empty data and checkpoint at revision 0; losing the race for the first insert is an error that adds nothing |
| `TextSession.DBClient.UpdateWorkflowRunTextSession` | api/db/workflow_run_text_session_client.py:142-183 | Missing session and stale revision are refused, changing nothing; otherwise the data and the checkpoint are the given ones, or else as before, and the revision grows by one |
| `TextSession.DBClient.CompleteWorkflowRunTextSession` | api/db/workflow_run_text_session_client.py:185-256 | Completion stores the given data and checkpoint and the merged, completed run together, or changes neither |
| `TextSession.DBClient.UpdateWorkflowRun` | api/db/workflow_run_client.py:429-495 | Truthy columns are replaced, documents merged key by key, completion only ever set |
| `TextSession.RevisionCountsCommits` | api/db/workflow_run_text_session_client.py:142-256 | Over any sequence of transactions the revision grows by exactly the number of committed session writes, and an unwritten session is unchanged |
| `TextSession.OneWriterPerRevision` | api/db/workflow_run_text_session_client.py:161-176 | Of all writers expecting the same revision at most one commits |
| `TextSession.GuardedWriterNeverLosesAnUpdate` | api/db/workflow_run_text_session_client.py:161-176 | A writer guarded by the revision it read commits if and only if nobody committed in between, and then over the very session it read; otherwise it learns how many commits it missed |
| `TextSession.PatchAssignsSlots` | api/db/workflow_run_client.py:445-488 | A run update is an assignment to exactly the columns and keys it names |
| `TextSession.SlotsDetermineRun` | api/db/workflow_run_client.py:445-488 | Those columns and keys, with the completion flag, are all of the run |
| `TextSession.PatchOrderDoesNotMatter` | api/db/workflow_run_client.py:464-482 | Updates that agree wherever they overlap, key-disjoint ones among them, give the same run in any order |
| `TextSession.TwoPatchesCommuteExactlyWhenTheyAgree` | api/db/workflow_run_client.py:464-482 | Two updates commute if and only if they agree wherever they overlap |
| `TextSession.RunsOnlyGrow` | api/db/workflow_run_client.py:464-486 | Over any transactions no context, log, annotation or extra key disappears and a completed run stays completed |
| `TextSession.CompletedExactlyByTransactions` | api/db/workflow_run_client.py:483-486 | A run is completed if and only if it was at the start or a committed update or completion completed it |
| `TextSession.LastWriterWinsPerSlot` | api/db/workflow_run_text_session_client.py:228-246 | Over any mix of updates and completions every key and column holds what the last committed transaction naming it wrote |
| `TextSession.LastWriterWinsInSession` | api/db/workflow_run_text_session_client.py:27-256 | Over any transactions the data and the checkpoint of a session are each the last ones a committed creation, update or completion gave, or else those at the start |
| `RunFilters.ConditionsOf` | api/db/filters.py:104-252 | The conditions one filter compiles to ask of every run exactly what the filter means, including nothing for unknown attributes, wrong types and empty values |
| `RunFilters.ApplyWorkflowRunFilters` | api/db/filters.py:61-257 | The compiled query selects exactly the runs of the base query that meet every filter |
| `RunFilters.ApplyingTwiceIsApplyingBoth` | api/db/filters.py:61-257 | Applying filters f and then g selects what applying f followed by g in one list selects |
| `RunFilters.FilterOrderDoesNotMatter` | api/db/filters.py:61-257 | Neither the order nor the repetition of filters matters |
| `RunFilters.NumberFilters` | api/db/filters.py:118-135 | Which column runId, workflowId and campaignId constrain |
| `RunFilters.RangeFilters` | api/db/filters.py:136-252 | dateRange, duration and tokenUsage bound their column on both sides, bounds included, and no row without a value is inside a bound |
| `RunFilters.CodeFilters` | api/db/filters.py:149-198 | A disposition filter asks for one of its codes, a tag filter for all of its tags |
| `RunFilters.RadioFilters` | api/db/filters.py:163-176 | What the status and direction filters ask for |
| `RunFilters.PhoneFilters` | api/db/filters.py:200-225 | Caller and called number filters ask for a match in their own column |
| `RunFilters.IdleFilters` | api/db/filters.py:104-117 | A type the attribute does not take, an unknown attribute and an empty value ask for nothing |
| `RunFilters.ModesOfChannels` | api/enums.py:78-102 | Which modes the web and chat filters select; the telephony filter selects all others |
| `RunFilters.ChannelsPartitionModes` | api/enums.py:45-102 | A run meets at most one of the three channel filters, and meets one if and only if its mode is one of the thirteen run modes, historical ones included |
| `RunFilters.PhoneFilterIsSubstringExactlyWhenPlain` | api/db/filters.py:204-229 | The phone filters are the documented substring match if and only if the text has no %, _ or backslash |
| `RunListing.SelectRuns` | api/db/organization_usage_client.py:162-197 | The runs a request matches: of workflows of the organization, with usage, created within the inclusive dates, meeting every allowed filter; disallowed filters ask for nothing |
| `RunListing.AllowedFiltersAreKnown` | api/db/organization_usage_client.py:28-40 | The page passes on every attribute of the common compiler but dateRange, status, tokenUsage and callTags |
| `RunListing.OrderIsStrictAndTotal` | api/db/filters.py:12-38 | Sort key with nulls last, then id descending, is a strict total order: no two runs tie |
| `RunListing.InOrderIsSorted` | api/db/filters.py:12-38 | Being in that order is exactly being sorted by the chosen column in the chosen direction, nulls last, ties by descending id |
| `RunListing.ListingIsUnique` | api/db/organization_usage_client.py:202-209 | There is exactly one ordered listing of a set of runs |
| `RunListing.GetUsageHistory` | api/db/organization_usage_client.py:145-210 | A page is the offset/limit slice of that listing, with the total count |
| `RunListing.GetUsageRunsForReport` | api/db/organization_usage_client.py:270-319 | The report lists every matching run once, by descending creation time, runs without one first |
| `RunListing.UsageRuns` | api/routes/organization_usage.py:353-423 | The handler answers page p of that listing, counting pages from 1, its rows ascending or descending by the chosen column, rows without a value last, equal values by descending id; the number of matching runs; and the number of pages |
| `RunListing.TotalPagesIsCeiling` | api/routes/organization_usage.py:423 | The rounding-up division is the number of pages it takes to hold the rows |
| `RunListing.AllPagesListEveryRunOnce` | api/routes/organization_usage.py:406-423 | For any filters, sort and page size, concatenating pages 1..total_pages lists every matching run exactly once, sorted, with no page empty |
| `RunListing.PagesHoldTheReport` | api/db/organization_usage_client.py:283-319 | The pages together hold exactly the runs of the report |
| `AgentTriggers.AgentTriggerClient.CheckTriggerPathConflicts` | api/db/agent_trigger_client.py:54-84 | Exactly the listed paths that another workflow owns, archived rows included |
| `AgentTriggers.AgentTriggerClient.SyncTriggersForWorkflow` | api/db/agent_trigger_client.py:99-192 | The whole sync with other commits between its reads and writes: conflict, unique violation with rollback, or the archived, reactivated and inserted rows |
| `AgentTriggers.SyncFailsExactlyOnForeignPath` | api/db/agent_trigger_client.py:138-151 | An undisturbed sync fails if and only if another workflow owns a listed path, which is when the availability check reports a conflict, with the same paths |
| `AgentTriggers.SyncSetsActivePaths` | api/db/agent_trigger_client.py:153-192 | Otherwise the workflow's active paths become exactly the given set, row by row: new paths with its organization, other own paths archived, kept rows unchanged but for their state; other workflows' rows are untouched |
| `AgentTriggers.SyncIsIdempotent` | api/db/agent_trigger_client.py:99-192 | Repeating a sync changes nothing |
| `AgentTriggers.OwnershipNeverMoves` | api/db/agent_trigger_client.py:138-151 | However syncs of any workflows interleave, an owned path stays with its owner |
| `AgentTriggers.FinishTouchesOwnRowsOnly` | api/db/agent_trigger_client.py:153-192 | A sync changes rows of its own workflow only |
| `AgentTriggers.RacingSyncIsExactExactlyWhenNothingWasAdded` | api/db/agent_trigger_client.py:124-192 | A sync that goes through makes the active paths the given ones if and only if no other sync of the workflow has meanwhile added an active path |
| `AgentTriggers.UndisturbedSyncIsExact` | api/db/agent_trigger_client.py:99-192 | If only other workflows finish syncs meanwhile, a sync fails without a trace when one of them took a path it was to add, and otherwise its active paths are exactly the given ones |
| `AgentTriggers.RacingSyncsOfOneWorkflowMerge` | api/db/agent_trigger_client.py:124-192 | A run in which two racing syncs of one workflow both succeed and leave the union of their paths active |
| `KnowledgeSearch.AddingCondition` | api/db/knowledge_base_client.py:401-425 | Adding a filter continues the placeholder numbering and leaves the meaning of the earlier conditions alone |
| `KnowledgeSearch.KnowledgeBaseClient.BuildSearch` | api/db/knowledge_base_client.py:386-449 | With the parameters bound, the generated condition holds of a chunk and its document exactly when the intended predicate does |
| `KnowledgeSearch.FilterPlaceholdersAreExactlyTheFilterParameters` | api/db/knowledge_base_client.py:386-425 | The condition names $2 and then $4 to the last parameter, each exactly once |
| `KnowledgeSearch.SettingEmbeddingKeepsMeaning` | api/db/knowledge_base_client.py:441-443 | Binding $1 last does not change what the condition means |
| `KnowledgeSearch.KnowledgeBaseClient.SearchSimilarChunks` | api/db/knowledge_base_client.py:355-453 | The answer is at most limit chunks of active documents of the organization that meet the given filters, by non-decreasing distance, chunks without an embedding last; such a chunk is left out only when limit chunks no farther than it were taken |
| `FailureCodes.CodesAreHyphenJoinedWords` | api/errors/failure.py:109-111 | A code is exactly one or more groups of [a-z0-9] joined by single hyphens |
| `FailureCodes.NormalizedCodeIsCode` | api/errors/failure.py:102-111 | Every text normalises to such a code |
| `FailureCodes.CodesAreTheFixedPoints` | api/errors/failure.py:102-111 | The texts that normalising leaves alone are exactly the codes |
| `FailureCodes.NormalizingIsIdempotent` | api/errors/failure.py:102-111 | Normalising codes and providers is idempotent |
| `FailureCodes.NormalizingJoinsWords` | api/errors/failure.py:102-111 | What a normalised text keeps: all groups of letters and digits of the lower-cased text, in order, joined by hyphens; platform-unknown when there are none |
| `FailureCodes.DograhFailure.PostInit` | api/errors/failure.py:152-162 | Construction resolves the owner first, and an invalid one raises before any field is normalised |
| `FailureCodes.InitializingIsIdempotent` | api/errors/failure.py:152-162 | Constructing a failure from a constructed one changes nothing |
| `FailureCodes.ExtractHttpStatus` | api/errors/failure.py:191-207 | The first of status_code, code, status and response status that is an integer from 100 to 599, or none; an enum member is not one, whatever its value |
| `FailureCodes.ClassifiersFollowPolicy` | api/errors/failure.py:261-476 | All three classifiers, on every path, follow one policy table over Dograh or not, stated owner, status and transience |
| `FailureCodes.StatusSeen` | api/errors/failure.py:261-476 | Which status each classifier goes by: a response's, else the exception's, else, away from Dograh, the one the message names |
| `FailureCodes.StatusDecidesType` | api/errors/failure.py:243-258 | Away from Dograh the status decides the type: 402 and 429 quota, 408 and 5xx provider, the rest of 300-499 configuration, everything else system |
| `FailureCodes.NoStatusDecidesType` | api/errors/failure.py:296-476 | Without a status an exception is transient exactly by its class or, for websockets, by its name; it is then retryable, and away from Dograh the provider's |
| `FailureCodes.OwnerFollowsSeam` | api/errors/failure.py:114-136 | Away from Dograh the user owns configuration and quota errors and what the seam says is the user's, the operator everything else |
| `FailureCodes.CodeNamesProviderAndDetail` | api/errors/failure.py:298-302 | The code is the normalised provider or else the source, and then the status, timeout, connection or unknown, or insufficient-credits for Dograh and 402 |
| `FailureCodes.UnknownFailureCodes` | api/errors/failure.py:20-30 | The code of an unidentified failure of each source |
| `FailureCodes.NumericVendorCodes` | api/errors/failure.py:210-240 | A numeric vendor code is its decimal digits, unless it repeats the status |
| `FailureCodes.TextualVendorCodes` | api/errors/failure.py:210-240 | A textual one of at most 128 characters is normalised like any code |
| `FailureCodes.ErrorCodeComesFirst` | api/errors/failure.py:220-240 | error_code is asked before code, and unusable values are passed over |
| `FailureCodes.UserErrorsAreNotRetryable` | api/errors/failure.py:130-131 | On every path configuration and quota errors are user-owned and not retryable |
| `FailureCodes.RetryableExactlyWhenProvider` | api/errors/failure.py:243-258 | Away from Dograh a failure is retryable if and only if it is a provider error, and undecided if and only if it is a system error |
| `FailureCodes.DograhIsUserOwnedExactlyFor402` | api/errors/failure.py:276-293 | Dograh failures never raise and are user-owned and quota errors if and only if the status is 402, whatever owner is stated; with a status they are retryable exactly for 5xx |
| `FailureCodes.RaisesExactlyOnUnusableOwner` | api/errors/failure.py:114-136 | A classifier raises if and only if the seam is not Dograh's, names no valid owner, and the type leaves the owner to the seam |
| `FailureCodes.VendorCodeNeverDecides` | api/errors/failure.py:210-218 | Exceptions that differ only in error_code are classified alike but for the code they carry |
| `FailureCodes.ClassifiedCodeIsProviderDetail` | api/errors/failure.py:298-302 | Every classified failure has a well-formed code, and it is exactly the provider-detail code it was built with if and only if no response with a negative status was classified |

## Left out

- HTTP routing and schemas, sessions, logging, queues, storage, telephony providers and model calls: each handler or client method is its sequence of atomic database steps.
- Organization configurations: deletion, validation stamps and unguarded writes to a key that is used as a lease or under the compare-and-set are not in the runs.
- Distinct lease tokens and distinct write timestamps are assumptions on the drawn values (a UUID, a microsecond clock).
- Webhook deliveries: headers, signing, payloads, back-off values, the recorded status code and error text and the job queue are not modelled, and the sweep assumes that ids created during it stay below some bound.
- Workflow versions: overlapping publications and discards are serial steps between the reads and commits of saves and reverts; legacy workflow columns matching the draft after a discard or revert are not claimed by the code and not stated; maintenance writers that edit stored versions are not modelled.
- Campaign redial: names, retry configuration, state and rate limits of the child are not modelled; a call's missing creation time is not modelled; "redialed at most once" is false for a stale parent reading (`SecondRedialNeedsAStaleReading`). The suffix of a retry's source_uuid is arbitrary, since the unique constraint is checked on insert.
- CampaignClient.ClaimQueuedRunsForProcessing: rows another transaction commits between the two selects are taken as given; row deletion is not modelled.
- Telephony credentials: sensitive paths are pairwise incomparable, as every provider's are; the text of a value that is not a string is a parameter; the provider is registered and its own save hook is the identity.
- CredentialDictionaries.Dict.SetNestedField: descends by recursion where the source loops with a moving reference; a dictionary given as the value is stored as a copy, and dictionaries shared between two places of one tree are excluded.
- Inbound routing: in the interleaved runs a request without a conflict guard is one step, its checks included. Provider calls are a yes/no parameter; names, labels, trunk settings, creation of configurations with taken names, and inbound webhook synchronisation are left out.
- Canonical addresses are opaque: address normalisation is not modelled.
- TextSession: documents are merged at their top level, values are opaque, runs and sessions are not deleted; `update_workflow_run` with a database NULL document cannot occur, the columns being NOT NULL.
- RunFilters: `strip` covers ASCII whitespace; ill-typed filter values that make the database or Python raise are not modelled. The endpoint documents the phone filters as a substring match; the code builds an unescaped LIKE pattern, and the model follows the code.
- Usage totals, costs and durations in floating point, run formatting and public links are left out; the listing is stated on a fixed database, not under writes between pages.
- Agent triggers: a sync's two reads see one table and its statements take effect at its commit; path length, organization of existing rows and cascading deletion of workflows are left out.
- KnowledgeSearch: the SQL text is modelled as conditions over numbered placeholders, the embedding distance is a given number.
- FailureCodes: messages, redaction and context are left out (redaction is not idempotent after truncation); the three-digit status found in a message and the letter case of non-ASCII characters are parameters; context-dependent case mapping is left out; `str.isdigit` covers ASCII digits.
- Simple create, read, update and delete clients, counters, embed tokens, scripts, the user interface and deployment would add only easy members.
