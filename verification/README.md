# Verified model of the CNP backend

CNP is a platform on which teams deploy applications to Kubernetes clusters, with GitLab as the
source of memberships and of the GitOps repository, Keycloak as the login service of the
applications and Vault as the store of their variables. This project models the parts of its
backend where several systems must stay in step, and proves what the code promises there over
every run, every interleaving the model allows and every failure of an external call.

`dafny verify dfyconfig.toml` checks everything. Databases, Keycloak, Vault and the GitOps
repository are maps; a class holds the fields the code updates and its methods do what the code
does, each proved against a specification function or relation. Laws over runs are lemmas about
those relations.

| modules | subject | main results |
|---|---|---|
| `Tiers`, `Pending`, `GitLabSync`, `SyncLaws` | tiers, the GitLab membership mirror | exactly when a run commits and mirrors GitLab, tiers follow GitLab, exact and precise reporting of lost maintainers, a quiet second run |
| `ConsoleAccess`, `ConsoleLaws`, `ConsoleService`, `RealmAccounts` | console accounts | every account justified or owed over every run, exactly when one becomes unjustified; revocation spares who is still covered |
| `Provisioning`, `ProvisioningLaws` | realms, clients, OIDC variables under faults | retries complete the setup, which is one the app can log in with; repeats change nothing, nothing foreign is touched |
| `KeycloakInstances`, `IssuerStability` | the instance registry and bindings | an enabled app's issuer never moves; exactly when its written issuers agree |
| `Activation`, `ActivationOverlap` | what activations leave on the app | the outcome invariant of every committed row, and exactly when overlapping attempts break it |
| `Paths`, `EnvVars`, `EnvVarLaws` | variables of developers and of CNP | exactly when the two never overwrite each other |
| `HealthWorker`, `HealthLaws` | cluster probes, outages, recovery | grace period, outages by the threshold, outage round trip, disjoint captures |
| `GitOps`, `GitOpsLaws`, `Scale`, `ScaleLaws` | values files, scaling | batch equals one by one, commuting writers, states agree with files, ticks converge |
| `Text`, `Markdown`, `MarkdownLaws` | splitting documentation | no word lost, cap respected, no needless split |
| `DocIndex`, `DocIndexLaws`, `Lexical`, `LexicalLaws` | the index and its ranking | incremental equals rebuild, nothing stored unredacted; exact, unique and bounded ranking, rare terms first |
| `ToolLoop`, `AssistantRoles` | the assistant | bounded, well-formed tool loop; roles agree with the API |

## Where the code and its promises part

Each of these is kept as the code has it, with lemmas that say exactly when it happens.

- An app bound to the global settings by an activation that has not finished can be bound to a
  cluster's instance by another activation that passed its key check as well; so can an app whose
  activation died after writing, once its `OIDC_*` variables were deleted. Its issuers then differ,
  unless the instance has the global URL. Everything else keeps them one value, and so do
  activations that neither overlap nor have keys deleted (`AllWrittenIssuersAgree`,
  `RebindingSplitsIssuers`, `SerialActivationsAgree`).
- A sync session does not flush before it reads, so when two apps share a GitLab project each adds
  the rows of its newcomers, and the commit violates a unique constraint: nothing is written,
  nobody is revoked, and so it goes for as long as the newcomer is listed and has no row. `RunSync`
  states exactly when (`MirrorAgrees`, `RunsStayStuck`, `SharedProjectFailsOnANewcomer`;
  `DistinctProjectsCommit` gives the safe case).
- Of the apps that share a GitLab project, only the first one visited by a sync has its lost
  maintainers handed over, unless an owning group reports them (`LostTierIsHandedOverIffFirst`).
  `add_member` re-checks the app it was called for only. Accounts on the other apps then stay
  although nothing justifies them: `BecomesUnjustifiedIff` says when for every step,
  `AddMemberLeavesUnjustifiedIff` and `SyncLeavesUnjustifiedIff` in the terms of the two calls, and
  `AddMemberLeavesAnAccount` reaches a case.
- An activation checks dev and prod for `OIDC_*` variables, writes them and commits at different
  times. A developer who touches one of them in between loses the value or changes CNP's
  (`AuthorsNeverCollide`, `SplitActivationCollides`).
- Activations of one app that overlap can leave it provisioned with a failure still listed, or drop
  the chart warning: each commit writes the columns it changed and no others
  (`CommitIsCoherentIff`, `ChartSurvivesStepIff`).
- After a restart of the worker during an outage, the apps it had degraded stay DEGRADED
  (`RoundTripIffNoRestart`).
- Stop then resume creates a missing values file and rewrites an empty one, so it is the identity
  exactly on the files `StopThenResume` names. A batch that means a missing file twice is refused,
  although its changes would pass one at a time (`PushReplicaOverridesBatch` states when;
  `DistinctTargetsAreAccepted` gives the safe case).
- `chunk_markdown` may emit a chunk without text; `EveryChunkHasTextIff` says exactly when. Its
  comment speaks of headings up to six `#`; the code, and the model, accept any number.
- A member of a hidden system group is a viewer to the assistant whatever the API grants
  (`SystemGroupHidesTheRole`; `RoleAgreesWithApi` gives the exact condition).

## Model

| member | source | states |
|---|---|---|
| `Tiers.SelectLevels` | backend/services/tier_service.py:38-45 | the list holds exactly the levels of the user's active rows in the scope |
| `Tiers.MaxLevel` | backend/services/tier_service.py:62 | an element of the list that no element exceeds |
| `Tiers.TopLevelGivesTier` | backend/services/tier_service.py:15-22 | the tier of the highest level is reached by a counting row and no counting row reaches a higher one |
| `Tiers.EffectiveTierUnique` | backend/services/tier_service.py:25-62 | the row-by-row statement of the effective tier determines it |
| `Tiers.GetEffectiveTier` | backend/services/tier_service.py:29-62 | for every tier t: the result is at least t iff t is Viewer or some active project or owning-group row of the user reaches t; a missing app gives Viewer |
| `GitLabSync.AbsentMember` | backend/services/gitlab_sync_service.py:140-154 | a fetched list gives an id a level iff the id occurs in it |
| `Pending.FlushedLookup` | backend/db/session.py:21-27 | a row not flushed yet is found once the added rows are written |
| `Pending.FlushedSize` | backend/db/models.py:261-264 | rows the constraints accept are as many new rows |
| `Pending.AddedTwice` | backend/db/models.py:261-264 | a row added twice cannot be written |
| `GitLabSync.Mirror.UpsertMembers` | backend/services/gitlab_sync_service.py:152-174 | every fetched member's row the session had read becomes active with its level and link, every other such row stays; the members without one are added to the session, in order; the users reported are those of rows that lose the console tier by the new level |
| `GitLabSync.Mirror.UpsertMember` | backend/services/gitlab_sync_service.py:152-174 | one fetched member: its row is rewritten, or it is added, and its user is reported iff the new level drops the row below the console tier |
| `GitLabSync.Mirror.UpsertInvites` | backend/services/gitlab_sync_service.py:284-303 | every listed invitation's row the session had read becomes pending with its level (10 if none), keeping its user; the invitations without one are added |
| `GitLabSync.Mirror.RevokeIfAbsent` | backend/services/gitlab_sync_service.py:182-188 | an active row absent from the fetch becomes left and reports its user iff it granted the console tier; any other row stays |
| `GitLabSync.Mirror.RevokeAbsentMembers` | backend/services/gitlab_sync_service.py:181-188 | exactly the active rows read before and absent from the fetch become left; the count and the reported users are theirs |
| `GitLabSync.Mirror.RevokeWithdrawnInvites` | backend/services/gitlab_sync_service.py:314-319 | exactly the pending rows read before and no longer listed become left, and the count is theirs |
| `GitLabSync.Mirror.SyncMembers` | backend/services/gitlab_sync_service.py:140-188 | every row of the scope the session had read, after the two member loops, from the same row before; exactly the newcomers are added; the reported users are exactly those whose row stops granting the console tier |
| `GitLabSync.Mirror.SyncInvites` | backend/services/gitlab_sync_service.py:284-319 | every invitation row of the project after the two invitation loops, the invitations added, and the two counts |
| `GitLabSync.Mirror.SyncGroup` | backend/services/gitlab_sync_service.py:116-205 | a failed fetch changes nothing; else every row read as specified and exactly the newcomers added, counts equal to rows added, fetched rest and rows left, and the pairs added are exactly (enabled app of the group, user losing the tier) |
| `GitLabSync.Mirror.SyncProject` | backend/services/gitlab_sync_service.py:217-324 | the same for a project with members and invitations, for the one app it is called with |
| `GitLabSync.ScopeSynced` | backend/services/gitlab_sync_service.py:343-356 | syncing an unvisited scope in the middle of a run is the same as computing it from the rows before the run, for rows and for pairs |
| `GitLabSync.ScopeAddsMeaning` | backend/services/gitlab_sync_service.py:161-168 | a sync adds exactly the rows the scope should have and its SELECT did not return, each as specified |
| `GitLabSync.ScopeFlushed` | backend/services/gitlab_sync_service.py:217-324 | syncing a scope the session added nothing to is, once the adds are written, the specified sync of the scope: rows, rows left and reports |
| `GitLabSync.ProjectAgain` | backend/services/gitlab_sync_service.py:248-303 | a second app on a visited project: no row it reads changes and nobody is reported, but every newcomer is added again; the session can be committed iff there is none |
| `GitLabSync.NextShared` | backend/services/gitlab_sync_service.py:349-356 | one more app makes the run uncommittable iff it shares its project with an earlier one and the project has a newcomer |
| `GitLabSync.NextFirst` | backend/services/gitlab_sync_service.py:349-356 | an app whose project was visited changes nothing about who is first, another one becomes the first of its project |
| `GitLabSync.LeavingAddsUp` | backend/services/gitlab_sync_service.py:343-356 | rows marked as left in two phases that touch different rows add up |
| `GitLabSync.ProjectLeft` | backend/services/gitlab_sync_service.py:305-319 | the rows a project sync marks as left are the departed members and the withdrawn invitations, each once |
| `GitLabSync.Mirror.SyncNextGroup` | backend/services/gitlab_sync_service.py:343-347 | one more group extends the run by that group's rows, pairs and counts, and the session stays committable |
| `GitLabSync.Mirror.SyncNextProject` | backend/services/gitlab_sync_service.py:349-356 | one more app, its project fetched or not, visited before or not: the session stays committable iff no two apps visited share a project with a newcomer, and while it is, the run is extended by the app's rows, pairs and counts |
| `GitLabSync.Mirror.Commit` | backend/db/models.py:261-264 | the commit succeeds iff no added row has the id of an existing row or of another added one; then all are written, else nothing is |
| `GitLabSync.Mirror.RunSync` | backend/services/gitlab_sync_service.py:327-448 | the run commits iff no project visited for two apps has a fetched member or invitation without a row before the run. If it does: every row of every fetched scope is the specified one, rows of unfetched scopes are unchanged, a pair is handed over iff a fetched owning group reports it, or the project does and the app is the first one visited with it, and created, updated and revoked are the growth in rows, the other fetched entries and the rows newly left. If not: no row changes and no pair is handed over |
| `SyncLaws.ConsoleTierIsAGrant` | backend/services/keycloak_service.py:66-72 | the effective tier is Maintainer or above iff a single row grants it |
| `SyncLaws.LostGrantIsReported` | backend/services/gitlab_sync_service.py:105-113 | a row stops granting the console tier only if its scope was fetched and the row itself reports the user |
| `SyncLaws.LostTierIsReported` | backend/services/gitlab_sync_service.py:105-205 | whoever falls from Maintainer or above to below on an enabled app is reported by a synced scope of the app, whichever of the two memberships was lost |
| `SyncLaws.LostTierIsHandedOverIffFirst` | backend/services/gitlab_sync_service.py:194-202 | exact completeness: such a user is handed over iff the app is the first one visited with its project, or a fetched owning group reports them |
| `SyncLaws.DistinctProjectsMissNobody` | backend/services/gitlab_sync_service.py:321-356 | so nobody is missed when no two apps share a project |
| `SyncLaws.ReportedPairLostARow` | backend/services/gitlab_sync_service.py:105-324 | precision: a reported pair really lost a granting row on that app |
| `SyncLaws.RunKeepsRowsWellFormed` | backend/services/gitlab_sync_service.py:140-324 | rows with a GitLab id never become pending and rows with an email never active |
| `SyncLaws.RunKeepsLinksStable` | backend/services/gitlab_sync_service.py:99-102 | a run keeps every row's user the one its GitLab id is linked to |
| `SyncLaws.MirrorAgrees` | backend/services/gitlab_sync_service.py:140-324 | exact mirror agreement: after a run every fetched scope has exactly GitLab's members as its active rows, with their levels, and every fetched project exactly its invitations as pending rows, iff no project of two visited apps had a newcomer; no row is deleted |
| `SyncLaws.CommittedScopeMirrors` | backend/services/gitlab_sync_service.py:140-324 | a committed run leaves a fetched scope with exactly GitLab's members active and a project with exactly its invitations pending |
| `SyncLaws.FetchedLevel` | backend/services/gitlab_sync_service.py:137-154 | the level of a fetched list without repetitions is the one GitLab gives |
| `SyncLaws.ListedLevel` | backend/services/gitlab_sync_service.py:284-303 | the level of an invitation is the one GitLab gives, 10 without one |
| `SyncLaws.ListedMembersRow` | backend/services/gitlab_sync_service.py:255-283 | a listed member's row is active at the listed level; its user is the one the GitLab id is linked to, and without a link whoever it belonged to |
| `SyncLaws.UnlistedMembersRow` | backend/services/gitlab_sync_service.py:305-312 | a member no longer listed: an active row is marked as left and keeps its level and user, any other row stays |
| `SyncLaws.InvitationsRow` | backend/services/gitlab_sync_service.py:284-319 | a listed invitation is pending at its level and keeps its user; a withdrawn one has left, with level and user kept |
| `SyncLaws.FailedInvitationsWithdrawAll` | backend/services/gitlab_sync_service.py:235-242 | a failed fetch of the invitations counts as an empty list: every pending one has left |
| `SyncLaws.UnfetchedRowsStay` | backend/services/gitlab_sync_service.py:127-134 | rows of a scope whose fetch failed or was not made stay as they were |
| `SyncLaws.LinkedMaintainersMaintain` | backend/services/gitlab_sync_service.py:262-272 | whoever GitLab lists at 40 or above in a scope of the app, and is linked, is Maintainer of the app after the run |
| `SyncLaws.TierFollowsGitLab` | backend/services/tier_service.py:29-62 | after a run that fetched the scopes of an app, a user's tier on it is exactly the best level GitLab lists the user at there, with 30, 40 and 50 as the thresholds |
| `SyncLaws.ReportedIffLost` | backend/services/gitlab_sync_service.py:105-113 | a row reports exactly the user it has after the run, when it granted Maintainer before and does not any more |
| `SyncLaws.DistinctProjectsCommit` | backend/services/gitlab_sync_service.py:349-358 | a run always commits when no two apps share a project |
| `SyncLaws.RunsStayStuck` | backend/services/gitlab_sync_service.py:451-463 | runs one after the other write nothing for as long as GitLab lists the newcomer of a project two visited apps share, whatever else its answers say |
| `SyncLaws.SharedProjectFailsOnANewcomer` | backend/services/gitlab_sync_service.py:248-282 | two apps on one project, an empty table and one member: such a run |
| `SyncLaws.SecondRunKeepsRow` | backend/services/gitlab_sync_service.py:327-362 | a second run on the same answers leaves every row |
| `SyncLaws.SyncedScopeReportsNothing` | backend/services/gitlab_sync_service.py:116-205 | a scope just synced reports nobody and marks nobody as left when synced again |
| `SyncLaws.SecondRunCommits` | backend/services/gitlab_sync_service.py:327-362 | after a committed run the next one on the same answers commits |
| `SyncLaws.SecondRunIsQuiet` | backend/services/gitlab_sync_service.py:327-362 | a second run on the same answers commits, changes nothing, hands over no pair, and counts nothing created and nothing revoked |
| `SyncLaws.SharedProjectHidesSecondApp` | backend/services/gitlab_sync_service.py:349-356 | a run over two apps on one project that commits and hands over the lost maintainer of the first and not of the second |
| `ConsoleAccess.GrantsElsewhereStay` | backend/services/tier_service.py:29-62 | changing one row that did not grant, or still grants, loses nobody Maintainer |
| `ConsoleAccess.SyncKeepsJustified` | backend/services/gitlab_sync_service.py:327-358 | a sync leaves a justified account justified, deletes it, or leaves it owed |
| `ConsoleAccess.AddMemberKeepsJustified` | backend/services/app_service.py:268-325 | the same for a membership change through add_member |
| `ConsoleAccess.OtherStepKeepsJustified` | backend/api/routes/users.py:97-123 | the same for demotions, deactivations and every other step |
| `ConsoleAccess.StepKeepsInv` | backend/services/keycloak_service.py:159-216 | every step, whatever realms are down, keeps: each console account is justified or owed |
| `ConsoleLaws.BecomesUnjustifiedIff` | backend/services/keycloak_service.py:159-216 | exact condition for every step: a justified account that owes nothing stays without being justified iff the step leaves it behind (its realm is down, or another app of the project was re-checked in its place) and its user is no active admin |
| `ConsoleLaws.AddMemberLeavesUnjustifiedIff` | backend/services/app_service.py:285-325 | for add_member with every realm up, in terms of the state before: the account's user is no admin, the account is on another app of the project, the new level is below Maintainer, and the rewritten row was all that gave the user Maintainer there |
| `ConsoleLaws.SyncLeavesUnjustifiedIff` | backend/services/gitlab_sync_service.py:194-202 | for a sync with every realm up: the user is no admin and falls below Maintainer on the app, the app is not the first one visited with its project, and no fetched owning group reports the user |
| `ConsoleLaws.AddMemberLeavesAnAccount` | backend/services/app_service.py:285-325 | reached from an empty platform with every realm up: a Maintainer with accounts on two apps of one project is demoted through the first, and the account on the second stays without being justified |
| `ConsoleAccess.UnjustifiedAccountsAreOwed` | backend/services/keycloak_service.py:461-546 | over every run, an account that is not of an active user who is admin or Maintainer and above is owed, and what is owed still exists |
| `ConsoleAccess.OwedWasLeftBehind` | backend/services/keycloak_service.py:159-200 | an owed account was left by a step whose realm could not be reached or that re-checked another app of the project, and was neither deleted nor granted anew since |
| `ConsoleAccess.AccountsAreJustified` | backend/services/keycloak_service.py:461-546 | over every run whose revocations reached their realms and concerned every app of a project, every console account belongs to an active user who is admin or Maintainer and above on an enabled app |
| `ConsoleAccess.DistinctProjectsAreAllFirst` | backend/services/gitlab_sync_service.py:349-356 | a sync concerns every app of a project when no two apps share one |
| `ConsoleAccess.SyncSparesMaintainers` | backend/services/keycloak_service.py:186-200 | a sync deletes an account only of a user who lost a granting row and is below Maintainer after the commit |
| `ConsoleLaws.SyncRevokesIff` | backend/services/gitlab_sync_service.py:327-362 | a sync with the realms up takes exactly the accounts of users, administrators or not, who lost a granting row of the app (of its project only if the app is the first visited with it) and are below Maintainer on it afterwards |
| `ConsoleLaws.JustifiedMeaning` | backend/services/keycloak_service.py:461-496 | an account is justified iff the user is active, the app enabled, and the user admin or holding an active row at 40 or above in the app's project or owning group |
| `ConsoleLaws.StepSparesMaintainers` | backend/services/keycloak_service.py:159-200 | every step takes accounts only of users who are inactive or below Maintainer on that app afterwards, in realms that are up |
| `ConsoleLaws.UpdateSetsWhatItNames` | backend/api/routes/users.py:97-123 | a user update sets the fields it names and nothing else |
| `ConsoleLaws.UpdateRevokes` | backend/api/routes/users.py:97-123 | deactivating takes every reachable account of the user, demoting an admin every one the user does not maintain the app for, any other update none |
| `ConsoleLaws.AddMemberSetsTheRow` | backend/services/app_service.py:285-325 | add_member leaves the member's row active at the level, of the linked user if there is one, and every other row as it was |
| `ConsoleLaws.AddMemberRevokesIff` | backend/services/app_service.py:285-325 | with the realms up, add_member takes an account on its app iff the row granted Maintainer, the new level does not, and nothing else does |
| `ConsoleService.Service.RevokeMember` | backend/services/keycloak_service.py:498-516 | deletes the user's accounts in the two realms, each on its own; a realm that is down keeps its account |
| `ConsoleService.Service.RevokeIfNotMaintainer` | backend/services/keycloak_service.py:159-183 | deletes exactly when the app is enabled, the row has a user, and that user's tier from both tables is below Maintainer |
| `ConsoleService.Service.DueOneMore` | backend/services/keycloak_service.py:186-200 | revoking pair by pair deletes what revoking all pairs at once would |
| `ConsoleService.Service.RevokeLostConsoleAccess` | backend/services/keycloak_service.py:186-200 | for a set of pairs: exactly the accounts of pairs below Maintainer, skipping apps that are gone |
| `ConsoleService.Service.GrantConsoleAccess` | backend/services/keycloak_service.py:461-496 | granted iff the caller is active, the app enabled, the caller admin or Maintainer and above, and Keycloak did everything; an account appears only then or when Keycloak failed after creating it, as a Grant step |
| `ConsoleService.Service.SyncAndRevoke` | backend/services/gitlab_sync_service.py:327-358 | sync, commit, revoke is a Sync step of the console model; when the commit fails, which is iff two visited apps share a project with a newcomer, nothing changes and nobody is revoked |
| `ConsoleService.Service.AddMember` | backend/services/app_service.py:285-325 | writing the row, then revoking if it lost the console tier, is an AddMember step |
| `ConsoleService.Service.UpdateUser` | backend/api/routes/users.py:97-123 | the update and its background revocation are an UpdateUser step |
| `ConsoleService.Service.RevokeUserEverywhere` | backend/services/keycloak_service.py:518-531 | deletes the user's accounts on every enabled app whatever their tier |
| `Provisioning.External.CreateRealm` | backend/keycloak/client.py:132-171 | a taken name or id leaves every realm as it was; an error may still have taken effect |
| `Provisioning.External.DisablePasswordGrant` | backend/keycloak/client.py:179-203 | the password grant is closed, a missing admin-cli is nothing to do, an error leaves either state |
| `Provisioning.External.CreateClient` | backend/keycloak/client.py:205-249 | an existing client is kept; on success the audience mapper is there too |
| `Provisioning.External.EnsureAudienceMapper` | backend/keycloak/client.py:260-283 | adds the mapper if missing and nothing else |
| `Provisioning.External.GetClientSecret` | backend/keycloak/client.py:285-291 | the stored secret, or an error |
| `Provisioning.External.PatchSecret` | backend/vault/client.py:58-76 | merges into the path, creating it in a second request if it has no data |
| `Provisioning.External.OwnedRealmExists` | backend/services/keycloak_service.py:332-346 | fails on a foreign realm, else tells whether the realm exists |
| `Provisioning.External.EnsureOwnedRealm` | backend/services/keycloak_service.py:362-379 | on success the realm is the app's; without faults it succeeds iff the name is the app's, or free with its id unused, at creation time |
| `Provisioning.RealmStage` | backend/services/keycloak_service.py:362-379 | whatever happens while the realm is created, no realm of another owner changes |
| `Provisioning.GrantStage` | backend/keycloak/client.py:179-203 | closing the password grant touches nothing else, and nothing at all on a finished setup |
| `Provisioning.ClientIsKept` | backend/keycloak/client.py:205-283 | an existing client keeps its settings and secret, a new one has the requested ones |
| `Provisioning.ClientStage` | backend/keycloak/client.py:205-283 | creating the client and mapper touches nothing else, and nothing at all on a finished setup |
| `Provisioning.VaultStage` | backend/vault/client.py:58-76 | writing the OIDC variables keeps every other key and path, and changes nothing on a finished setup |
| `Provisioning.External.ConfigureRealm` | backend/services/keycloak_service.py:380-386 | the realm is ready on success, and only allowed changes were made otherwise |
| `Provisioning.External.WriteVariables` | backend/services/keycloak_service.py:387-403 | the full setup on success, and only allowed changes otherwise |
| `Provisioning.External.Provision` | backend/services/keycloak_service.py:348-403 | one attempt with any faults and any race: only the app's own realm and managed keys change; success means the full setup; without faults it succeeds iff it can, and on a finished setup it changes nothing |
| `ProvisioningLaws.StaysProvisionable` | backend/services/keycloak_service.py:348-403 | no failed attempt makes the app impossible to provision while nobody takes its realm name or id |
| `ProvisioningLaws.RetryCompletesSetup` | backend/services/keycloak_service.py:348-403 | after any number of attempts failing anywhere, the first one without faults succeeds and leaves the full setup |
| `ProvisioningLaws.RepeatChangesNothing` | backend/services/keycloak_service.py:348-403 | provisioning a finished setup again changes nothing |
| `ProvisioningLaws.FaultFreeOutcome` | backend/services/keycloak_service.py:332-372 | an attempt without faults succeeds iff the realm is the app's, or its name and id are free |
| `ProvisioningLaws.OthersNeverChange` | backend/services/keycloak_service.py:348-403 | over every history no foreign realm, no other Vault path and no unmanaged key changes |
| `ProvisioningLaws.SetupMeaning` | backend/services/keycloak_service.py:362-395 | a finished setup: realm <slug>-<env> with the app's id and owner, password grant closed, client <slug> with the audience mapper, OIDC_ISSUER_URL = public URL + "/realms/" + that realm, OIDC_CLIENT_ID = that client, OIDC_CLIENT_SECRET = its stored secret if confidential |
| `ProvisioningLaws.SuccessLogsIn` | backend/services/keycloak_service.py:362-403 | an attempt that succeeds, or writes to Vault at all, leaves just that; a public client's secret variable is never touched |
| `ProvisioningLaws.ForeignRealmIsRefused` | backend/services/keycloak_service.py:332-379 | a realm of that name with another owner or another id makes the attempt fail and change neither it nor Vault |
| `ProvisioningLaws.NewRealmMeaning` | backend/services/keycloak_service.py:362-386 | a realm an attempt created and finished has the baseline and one client besides admin-cli, of the requested kind and redirects, opening no password login |
| `ProvisioningLaws.ExistingClientsStay` | backend/keycloak/client.py:205-249 | whatever the attempt does, a client that was there keeps kind, secret and redirects, and every client but the app's and admin-cli stays as it was |
| `RealmAccounts.OtherHoldersStay` | backend/keycloak/client.py:307-315 | accounts CNP did not create for a user keep everybody else's console access |
| `RealmAccounts.Realm.EnsureAdminUser` | backend/keycloak/client.py:293-375 | the profile policy is set first; the account is found by attribute, never by name; a name held by another account changes no account; without faults it succeeds iff the user has an account or the name is free |
| `RealmAccounts.Realm.SetTeamConsoleRoles` | backend/keycloak/client.py:377-403 | the account ends with exactly the team roles; without faults it succeeds iff the realm offers them; on an error only its roles may differ |
| `RealmAccounts.Realm.Grant` | backend/services/keycloak_service.py:461-496 | the holders of console accounts gain the user, who gets the temporary password, and nobody else changes |
| `RealmAccounts.Realm.Revoke` | backend/keycloak/client.py:412-417 | the holders lose the user and nobody else, even when a request fails on the way |
| `RealmAccounts.TeamRolesStayInside` | backend/keycloak/client.py:24-43 | an account with exactly the team roles manages users, clients and events, and has no role over the realm itself |
| `KeycloakInstances.Service.FindByCluster` | backend/services/keycloak_instance_service.py:89-97 | the instance of the cluster, if there is one |
| `KeycloakInstances.Service.Resolve` | backend/services/keycloak_instance_service.py:82-102 | by bound key, else global settings for enabled or clusterless apps, else the cluster's instance; refused iff nothing enabled is selected, or the selected instance's credential is missing |
| `KeycloakInstances.Service.BindForActivation` | backend/services/keycloak_instance_service.py:107-120 | binds to what the app resolves to under the locks, or changes nothing |
| `KeycloakInstances.Service.Upsert` | backend/services/keycloak_instance_service.py:159-213 | accepted iff the key is well formed and new if it must be, its cluster exists and is free, its credential works, and no linked app would see another URL |
| `KeycloakInstances.Service.Delete` | backend/services/keycloak_instance_service.py:215-232 | accepted iff the instance exists and no app is linked |
| `KeycloakInstances.BoundResolution` | backend/services/keycloak_instance_service.py:82-105 | a bound app resolves to its instance while that is enabled, and to nothing else |
| `KeycloakInstances.GlobalResolution` | backend/services/keycloak_instance_service.py:82-105 | an unbound app that is enabled or has no cluster resolves to the global settings while they are on |
| `KeycloakInstances.ClusterResolution` | backend/services/keycloak_instance_service.py:82-105 | an unbound app that is off resolves to its cluster's instance, refused while disabled, and to the global settings only when the cluster has none |
| `KeycloakInstances.BindingMeaning` | backend/services/keycloak_instance_service.py:107-120 | an app resolves to one thing at most, and a binding stores just that and nothing else |
| `IssuerStability.StepKeepsInv` | backend/services/keycloak_instance_service.py:82-120 | a running activation bound to an instance agrees with the committed binding at every step |
| `IssuerStability.StepKeepsIssuer` | backend/services/keycloak_instance_service.py:159-232 | every step keeps a bound or enabled app on the same instance with the same public URL |
| `IssuerStability.EnabledResolvesToIssuer` | backend/services/keycloak_instance_service.py:82-105 | what such an app resolves to is that instance and URL |
| `IssuerStability.PinnedIssuerIsStable` | backend/services/keycloak_instance_service.py:82-232 | over every interleaving of activations, registry changes and retargeting, an enabled app's instance and public URL never change again |
| `IssuerStability.BindKeepsOneIssuer` | backend/services/keycloak_service.py:263-291 | a binding that does not rebind an app with a running or dead activation on the global settings to another URL keeps all its issuers one |
| `IssuerStability.OtherKeepsOneIssuer` | backend/services/keycloak_service.py:387-390 | so does every other step |
| `IssuerStability.AllWrittenIssuersAgree` | backend/services/keycloak_service.py:387-390 | without such a rebinding every OIDC_ISSUER_URL ever written for an app has one realm base |
| `IssuerStability.SerialStep` | backend/services/keycloak_service.py:263-291 | while no two activations of an app overlap and nobody deletes its keys, the key check keeps such a rebinding from happening |
| `IssuerStability.SerialActivationsAgree` | backend/services/keycloak_service.py:263-291 | so then all its issuers are one value, whatever dies and whatever administrators do |
| `IssuerStability.RebindingSplitsIssuers` | backend/services/keycloak_service.py:263-291 | converse: wherever such a rebinding happens, the sessions only have to finish writing for the app to have had two issuers |
| `IssuerStability.RebindingIsReachable` | backend/services/keycloak_instance_service.py:82-120 | reached with two activations past their key check |
| `IssuerStability.RebindingAfterDeathIsReachable` | backend/services/keycloak_service.py:266-280 | and after an activation that wrote and died, once its keys were deleted |
| `Activation.DeduplicatedMeaning` | backend/services/keycloak_service.py:149-152 | the list keeps each warning once |
| `Activation.ClearedMeaning` | backend/services/keycloak_service.py:155-156 | exactly the activation warnings are removed |
| `Activation.Row.MarkActivationFailed` | backend/services/keycloak_service.py:293-302 | False with this attempt's reason in place of an earlier one, committed |
| `Activation.Row.Activate` | backend/services/keycloak_service.py:263-291 | the committed row and whether it raises, for every answer of Vault, the registry and Keycloak, when nothing commits in between |
| `Activation.Row.ProvisionKeycloak` | backend/services/app_service.py:423-453 | never raises; a crash before or after the activation's own commit is rolled back and recorded as a failure |
| `Activation.Row.CheckEnvfromWarning` | backend/services/app_service.py:455-475 | adds the chart warning to what is there |
| `Activation.FailedIsCoherent` | backend/services/keycloak_service.py:293-302 | a recorded failure leaves exactly its own activation warning and every other warning |
| `Activation.EventKeepsCoherent` | backend/services/keycloak_service.py:263-306 | every event keeps the outcome invariant and the chart warning |
| `Activation.CommittedRowsAreCoherent` | backend/services/keycloak_service.py:263-306 | over attempts that do not overlap: in every committed row auth_provisioned is False iff exactly one activation warning is present, True only on an enabled app, and no warning is listed twice |
| `Activation.ChartWarningSurvives` | backend/services/app_service.py:455-475 | over attempts that do not overlap, chart_missing_envfrom survives every success, failure and retry |
| `Activation.LastAttemptGivesTheReason` | backend/services/keycloak_service.py:263-306 | the recorded reason is the last attempt's, and a success clears it |
| `Activation.FailedMeaning` | backend/services/keycloak_service.py:294-299 | a recorded failure leaves False and the list of the chart warning, if there, and this reason |
| `Activation.ActivationOutcome` | backend/services/keycloak_service.py:263-291 | for every app and every answer: enabled, provisioned, the whole warning list, and whether the request is refused |
| `Activation.CreationOutcome` | backend/services/app_service.py:423-453 | the same for creating an app with authentication, whatever crashes |
| `Activation.ChartCheckOutcome` | backend/services/app_service.py:455-475 | the chart check appends its warning once and touches nothing else |
| `ActivationOverlap.CommitIsCoherentIff` | backend/services/keycloak_service.py:280-302 | a commit, which writes the columns changed since the row was loaded, leaves a coherent row iff it is not torn: it writes one of outcome and list, and the row has failed or not where the session computed the contrary |
| `ActivationOverlap.CurrentSessionsNeverTear` | backend/services/keycloak_service.py:280-302 | a session whose loaded row is still the row never tears it |
| `ActivationOverlap.TornSuccessMeaning` | backend/services/keycloak_service.py:286-289 | a success tears the row iff it found no list to clear and a failure was recorded since it loaded the row |
| `ActivationOverlap.RowsAreCoherentUnlessTorn` | backend/services/keycloak_service.py:263-306 | over every interleaving of loads and commits, the outcome invariant holds up to the first torn commit |
| `ActivationOverlap.FirstTornCommitIsIncoherent` | backend/services/keycloak_service.py:263-306 | and that commit breaks it |
| `ActivationOverlap.ChartSurvivesStepIff` | backend/services/app_service.py:455-475 | the chart warning survives a commit iff the commit does not replace the list by one computed before the warning |
| `ActivationOverlap.ChartSurvivesUnlessForgotten` | backend/services/app_service.py:455-475 | and so over every interleaving |
| `ActivationOverlap.TwoAttemptsTear` | backend/services/keycloak_service.py:263-291 | two overlapping attempts, one failing and one succeeding, tear every row never attempted whose list was written |
| `ActivationOverlap.ChartCheckWritesTheList` | backend/services/app_service.py:455-475 | the chart check of a new app makes such a row |
| `ActivationOverlap.AloneIsActivation` | backend/services/keycloak_service.py:263-306 | without overlap a session leaves the row that the activation specifies |
| `Paths.LastSegment` | backend/services/env_var_service.py:51-52 | a path whose last segment has no slash determines that segment and the rest |
| `EnvVars.PathsAreDistinct` | backend/services/env_var_service.py:51-52 | distinct slugs or environments have distinct Vault paths, whatever the group paths |
| `EnvVars.Service.PatchSecret` | backend/vault/client.py:58-76 | a merge at one path |
| `EnvVars.Service.DeleteSecretKey` | backend/vault/client.py:78-99 | removes one key of one path, or nothing |
| `EnvVars.Service.SetVars` | backend/services/env_var_service.py:94-104 | refused for an unknown environment or app, or a managed key; else exactly the given keys are written |
| `EnvVars.Service.DeleteKey` | backend/services/env_var_service.py:106-114 | refused likewise; else exactly the key is removed |
| `EnvVars.Service.DefinesOidcKeys` | backend/services/keycloak_service.py:312-330 | true iff a managed key is present in that environment |
| `EnvVars.Service.BeginActivation` | backend/services/keycloak_service.py:263-330 | the key check of dev: refused iff the app is off and defines OIDC keys in dev; an app that is on is not checked |
| `EnvVars.Service.ContinueCheck` | backend/services/keycloak_service.py:312-330 | the key check of prod, a step of its own: refused iff the app then defines OIDC keys in prod |
| `EnvVars.Service.WriteVariables` | backend/services/keycloak_service.py:387-395 | the write of one environment is one step of the running activation |
| `EnvVars.Service.FinishActivation` | backend/services/keycloak_service.py:280-302 | the commit turns the app on and ends the session |
| `EnvVars.Service.Activate` | backend/services/keycloak_service.py:263-291 | uninterrupted: refused iff the app is off and defines OIDC keys in dev or prod; else writes managed keys only |
| `EnvVarLaws.OtherAppsKeepEntries` | backend/services/env_var_service.py:51-52 | a step on one app changes no entry of another |
| `EnvVarLaws.StepKeepsInv` | backend/services/env_var_service.py:29-33 | a step that does not meddle keeps every managed entry with the author it may have, and does not collide |
| `EnvVarLaws.ProvisioningKeepsOtherKeys` | backend/services/keycloak_service.py:393-395 | no step of an activation changes an unmanaged key |
| `EnvVarLaws.AuthorsNeverCollide` | backend/services/keycloak_service.py:263-330 | over every interleaving of set_vars, delete_key and the steps of activations in which no developer touches a key of an activation between its check of that environment and its commit: CNP overwrites no developer's value and developers change none of CNP's |
| `EnvVarLaws.RunKeepsInv` | backend/services/env_var_service.py:94-114 | the author invariant over every such interleaving |
| `EnvVarLaws.SplitActivationCollides` | backend/services/keycloak_service.py:263-291 | converse: wherever a developer does, that step collides, or the activation only has to go on, checking prod (once developers removed any keys there) and writing, for one of its writes to collide |
| `EnvVarLaws.WindowInsideCheck` | backend/services/keycloak_service.py:317-330 | the window between the checks of dev and prod is reached by a set_vars that is accepted |
| `EnvVarLaws.WindowBeforeWrite` | backend/services/keycloak_service.py:266-284 | so is the window between check and write |
| `EnvVarLaws.WindowAfterWrite` | backend/services/keycloak_service.py:283-289 | so is the window between write and commit |
| `EnvVarLaws.ManagedMeaning` | backend/services/env_var_service.py:20-33 | developers are refused exactly OIDC_ISSUER_URL, OIDC_CLIENT_ID and OIDC_CLIENT_SECRET, and only on an app that is on; CNP writes all three, or no secret for a public client |
| `EnvVarLaws.ClashMeaning` | backend/services/keycloak_service.py:317-330 | the key check finds any of the three at the app's place, whatever the kind of the client |
| `EnvVarLaws.SetVarsMeaning` | backend/services/env_var_service.py:94-104 | an accepted set_vars writes exactly its values at apps/<group>/<slug>/<env> and nothing elsewhere |
| `EnvVarLaws.ActivationMeaning` | backend/services/keycloak_service.py:263-291 | an uninterrupted activation leaves the app on, in dev and prod what was provisioned for that environment, and everything else as it was; off apps had none of the three before |
| `EnvVarLaws.WritesInOrder` | backend/services/keycloak_service.py:283-286 | a running activation writes dev first, then prod, exactly the keys of its kind of client, as CNP's |
| `HealthWorker.Worker.CascadeOffline` | backend/k8s/health_worker.py:34-50 | degrades exactly the deployed apps of the cluster and returns them |
| `HealthWorker.Worker.CascadeRecovery` | backend/k8s/health_worker.py:53-69 | restores exactly the captured apps that are degraded and still target the cluster |
| `HealthWorker.Worker.ProcessCluster` | backend/k8s/health_worker.py:72-132 | the whole new state after one processed probe |
| `HealthLaws.FailuresCountTheStreak` | backend/k8s/health_worker.py:84-99 | the counter is the length of the trailing failure streak since the start or the last success, over every run |
| `HealthLaws.OfflineNeedsTheStreak` | backend/k8s/health_worker.py:84-99 | a cluster turns OFFLINE exactly at a failed probe whose streak has reached the threshold |
| `HealthLaws.CascadesNeedATransition` | backend/k8s/health_worker.py:101-119 | apps change only at a transition, never from UNKNOWN |
| `HealthLaws.GraceChangesNothing` | backend/k8s/health_worker.py:84-99 | over every run: a failed probe whose streak is below the threshold changes no cluster's status, no app and no capture |
| `HealthLaws.SuccessMeansOnline` | backend/k8s/health_worker.py:84-87 | a successful probe leaves its cluster ONLINE whatever came before, and touches apps only when the cluster was OFFLINE |
| `HealthLaws.FailuresInGrace` | backend/k8s/health_worker.py:84-99 | n failed probes in a row below the threshold count to n and change nothing else |
| `HealthLaws.ThresholdFailuresAreAnOutage` | backend/k8s/health_worker.py:84-119 | from an ONLINE cluster with a clean counter, threshold failed probes in a row end OFFLINE with exactly its DEPLOYED apps DEGRADED and captured |
| `HealthLaws.UnknownGoesOfflineQuietly` | backend/k8s/health_worker.py:101-103 | from UNKNOWN the same probes end OFFLINE without touching an app |
| `HealthLaws.RunKeepsInv` | backend/k8s/health_worker.py:101-119 | an existing cluster has captured apps only while OFFLINE |
| `HealthLaws.EventKeepsDisjoint` | backend/k8s/health_worker.py:34-50 | a worker or retarget step keeps captured apps degraded and captured once |
| `HealthLaws.CapturesStayDisjoint` | backend/k8s/health_worker.py:101-119 | over every run of them, no app is captured for two clusters |
| `HealthLaws.CaptureSurvives` | backend/k8s/health_worker.py:101-119 | what an outage captured stays captured until the next successful probe, whatever others write |
| `HealthLaws.RecoveryRestoresExactly` | backend/k8s/health_worker.py:53-69 | with arbitrary other writers, recovery turns to DEPLOYED exactly the apps deployed there at the outage, degraded now and still on the cluster |
| `HealthLaws.WorkerLeavesOutageApps` | backend/k8s/health_worker.py:72-132 | the worker alone leaves the apps of a cluster that is out as the outage left them |
| `HealthLaws.OutageRoundTrip` | backend/k8s/health_worker.py:72-132 | outage and recovery with no other writer give every app of the cluster its status back |
| `HealthLaws.OutageState` | backend/k8s/health_worker.py:72-132 | through probes and restarts the cluster stays OFFLINE, its apps stay as the outage left them, and the capture is kept iff the worker did not restart |
| `HealthLaws.RoundTripIffNoRestart` | backend/k8s/health_worker.py:101-148 | with probes and restarts only in between, an app gets its status back iff it was not DEPLOYED or the worker did not restart |
| `HealthLaws.RestartLosesTheCapture` | backend/k8s/health_worker.py:146-148 | a restart in between leaves a deployed app degraded |
| `GitOps.ValuesPathsAreDistinct` | backend/gitlab/client.py:476-476 | distinct (cluster, slug, environment) have distinct values files |
| `GitOps.NextAction` | backend/gitlab/client.py:490-502 | a commit with one more action is accepted iff the action creates what is missing by then or updates what exists |
| `GitOps.Repository.Commit` | backend/gitlab/client.py:498-502 | all actions or none |
| `GitOps.Repository.UpsertIngress` | backend/gitlab/client.py:358-391 | only the ingress entry of one file changes; without read errors it succeeds iff the file is missing or holds mappings |
| `GitOps.Repository.RollbackImage` | backend/api/routes/apps.py:242-250 | only image.tag changes; succeeds iff the file and its image mapping exist and both requests go through |
| `GitOps.AcceptedPlan` | backend/gitlab/client.py:474-502 | an accepted batch left every file as its last change says, computed from the file before the batch |
| `GitOps.Repository.PushReplicaOverridesBatch` | backend/gitlab/client.py:450-502 | the same for the whole method, with listing and read failures; without them it succeeds iff every file is a mapping and no missing file is meant twice |
| `GitOpsLaws.OneByOneFile` | backend/gitlab/client.py:474-502 | file by file, a batch and its changes one at a time agree |
| `GitOpsLaws.BatchEqualsOneByOne` | backend/gitlab/client.py:450-502 | an accepted batch equals applying its changes one commit at a time |
| `GitOpsLaws.DistinctTargetsAreAccepted` | backend/gitlab/client.py:474-502 | a batch over distinct apps or environments is never refused |
| `GitOpsLaws.StopThenResume` | backend/gitlab/client.py:478-489 | stop then resume is the identity iff the file is no mapping, or a mapping without its own replicas |
| `GitOpsLaws.EditsCommute` | backend/gitlab/client.py:370-391 | edits of different writers commute |
| `GitOpsLaws.WritersCommute` | backend/api/routes/apps.py:246-250 | replica, ingress and rollback writers commute on every file, failures included |
| `GitOpsLaws.OtherWritersKeepReplicas` | backend/gitlab/client.py:378-382 | the other writers never touch the override |
| `GitOpsLaws.ReplicasWritten` | backend/gitlab/client.py:483-489 | an override pins replicas to the number or removes the key; no other key changes |
| `GitOpsLaws.IngressWritten` | backend/gitlab/client.py:378-382 | ingress.enabled as asked, className nginx, the host or none, tls off; other ingress keys and the rest of the file stay |
| `GitOpsLaws.ImageTagWritten` | backend/api/routes/apps.py:242-250 | a rollback sets image.tag; other image keys and the rest of the file stay |
| `GitOpsLaws.WritableMeaning` | backend/gitlab/client.py:371-378 | which files each writer accepts: a missing, empty or falsy document counts as an empty mapping |
| `GitOpsLaws.BatchWritten` | backend/gitlab/client.py:474-502 | a batch leaves apps/<cluster>/<slug>/values-<env>.yaml with the last override given for it and its other keys |
| `GitOpsLaws.OtherFilesStay` | backend/gitlab/client.py:474-502 | and every file it does not mean as it was |
| `Scale.Service.ApplyChanges` | backend/services/scale_service.py:74-132 | one push, then one state per change; nothing changes if the push fails, and when it can fail is stated |
| `Scale.Service.ResolveAppAndCluster` | backend/services/scale_service.py:44-57 | the cluster, or 404 and 409 as the code gives them |
| `Scale.Service.ManualScale` | backend/services/scale_service.py:134-150 | exactly the given environments are stopped for MANUAL or resumed |
| `Scale.Service.RunReconciliation` | backend/services/scale_worker.py:46-107 | after a tick every dev state is the specified one, no other state changes, and the count is the number of changes |
| `Scale.ManualLastFor` | backend/services/scale_service.py:134-150 | the last change a manual operation makes to an environment |
| `Scale.TickLastFor` | backend/services/scale_worker.py:71-88 | the loop's change list gives every app the state the tick specifies |
| `ScaleLaws.FilesAreDistinct` | backend/gitlab/client.py:476-476 | two environments never share a values file |
| `ScaleLaws.LastOverride` | backend/services/scale_service.py:92-132 | the last override for a file is the last change for its environment |
| `ScaleLaws.StepKeepsAgreement` | backend/services/scale_service.py:74-132 | a tick, a manual operation, an ingress change or a rollback keeps tracked states and files in agreement |
| `ScaleLaws.StatesAgreeWithGitOps` | backend/services/scale_service.py:74-132 | over every run, a tracked environment's file pins replicas to 0 iff it is stopped, and has no override otherwise |
| `ScaleLaws.TickChangesAreProper` | backend/services/scale_worker.py:71-88 | a tick only builds changes of an app's own cluster and slug |
| `ScaleLaws.ManualChangesAreProper` | backend/services/scale_service.py:134-150 | so does a manual operation |
| `ScaleLaws.TickIsAStep` | backend/services/scale_worker.py:46-107 | what a successful tick leaves is one step of the run model |
| `ScaleLaws.ManualIsAStep` | backend/services/scale_service.py:134-150 | and so is what a manual operation leaves |
| `ScaleLaws.OffHoursIsCyclic` | backend/services/scale_worker.py:31-37 | off hours are the cyclic interval from the down hour to the up hour |
| `ScaleLaws.TickConverges` | backend/services/scale_worker.py:71-107 | after a tick every eligible app's dev state is the desired one or a stop that is not the schedule's |
| `ScaleLaws.SecondTickIsEmpty` | backend/services/scale_worker.py:71-92 | a second tick at the same time builds no change |
| `ScaleLaws.TicksRespectManualStops` | backend/services/scale_worker.py:80-89 | no sequence of ticks resumes a manual stop or touches prod |
| `ScaleLaws.DesiredStoppedMeaning` | backend/services/scale_worker.py:31-43 | stopped all Saturday and Sunday if weekends count, and else from the down hour up to the up hour, cyclically |
| `ScaleLaws.TickMeaning` | backend/services/scale_worker.py:71-88 | case by case what a tick makes of every environment: only dev, only apps with a known cluster that did not opt out |
| `ScaleLaws.NightAndMorning` | backend/services/scale_worker.py:71-88 | a running dev environment is stopped by the evening tick and runs again after the morning one |
| `ScaleLaws.ManualMeaning` | backend/services/scale_service.py:134-150 | a manual operation sets exactly the environments it names: stopped for MANUAL, or running |
| `ScaleLaws.ManualStopSurvivesTicks` | backend/services/scale_worker.py:80-89 | what somebody stopped by hand stays stopped for MANUAL through any number of ticks |
| `ScaleLaws.TickChangesMeaning` | backend/services/scale_worker.py:62-88 | the changes a tick pushes are exactly the apps whose state it changes, each on its own cluster and slug |
| `Text.WordsOfConcat` | backend/services/platform_knowledge_service.py:51-103 | where two strings meet at whitespace their words do not run together |
| `Text.JoinKeepsWords` | backend/services/platform_knowledge_service.py:77 | joining with a blank separator keeps the words |
| `Text.SplitBlankJoins` | backend/services/platform_knowledge_service.py:87 | splitting at blank lines and joining gives the text back |
| `Text.SplitLinesKeepsWords` | backend/services/platform_knowledge_service.py:57 | the words of a text are the words of its lines |
| `Text.SplitOfJoinedWords` | backend/services/platform_knowledge_service.py:88-94 | words joined by a space are split into the same words |
| `Text.StripOfWordless` | backend/services/platform_knowledge_service.py:77-79 | a text strips to nothing iff it has no words |
| `Markdown.SplitSections` | backend/services/platform_knowledge_service.py:57-73 | the loop gives the sections of the recursive definition |
| `Markdown.PackBlock` | backend/services/platform_knowledge_service.py:87-100 | one paragraph: flush and hard split, flush and start anew, or collect |
| `Markdown.HardSplit` | backend/services/platform_knowledge_service.py:93-94 | the slices of an oversized paragraph |
| `Markdown.PackBlocks` | backend/services/platform_knowledge_service.py:83-102 | the packing loop gives the pieces of the recursive definition |
| `Markdown.ChunkSection` | backend/services/platform_knowledge_service.py:76-102 | the chunks of one section |
| `Markdown.ChunkMarkdown` | backend/services/platform_knowledge_service.py:51-103 | the chunks of a document |
| `MarkdownLaws.RenderKeepsWords` | backend/services/platform_knowledge_service.py:90-102 | the text of a chunk has the words of its piece |
| `MarkdownLaws.SlicesKeepWords` | backend/services/platform_knowledge_service.py:93-94 | hard slices keep every word and none exceeds the cap |
| `MarkdownLaws.PackKeepsWords` | backend/services/platform_knowledge_service.py:85-102 | packing keeps every word in order |
| `MarkdownLaws.PackFits` | backend/services/platform_knowledge_service.py:85-102 | no piece exceeds the cap |
| `MarkdownLaws.FirstPieceHoldsPara` | backend/services/platform_knowledge_service.py:96-100 | collected paragraphs end up in the next piece |
| `MarkdownLaws.PackIsTight` | backend/services/platform_knowledge_service.py:85-102 | two neighbouring packed pieces do not fit in one |
| `MarkdownLaws.SectionsKeepWords` | backend/services/platform_knowledge_service.py:57-73 | sections keep every word of the non-heading lines under its heading |
| `MarkdownLaws.ChunksConserveWords` | backend/services/platform_knowledge_service.py:51-103 | the words of all chunks in order, each with its chunk's heading, are the words of the non-heading lines in order, each under its section's heading |
| `MarkdownLaws.TaggedLinesAreAllWords` | backend/services/platform_knowledge_service.py:51-103 | without headings these are all the words of the document |
| `MarkdownLaws.ChunksRespectCap` | backend/services/platform_knowledge_service.py:51-103 | no chunk has more than max_tokens words |
| `MarkdownLaws.PackedChunksCannotMerge` | backend/services/platform_knowledge_service.py:83-102 | two consecutive packed chunks with no hard split between them exceed the cap together |
| `MarkdownLaws.PackBlankIff` | backend/services/platform_knowledge_service.py:85-102 | packing makes a piece without words iff it starts with wordless paragraphs only, or wordless ones lie between an oversized one and the next flush |
| `MarkdownLaws.SectionHasEmptyChunkIff` | backend/services/platform_knowledge_service.py:76-102 | a section gives a chunk without text iff it is oversized and between two oversized paragraphs there are only wordless ones, and at least one |
| `MarkdownLaws.EveryChunkHasTextIff` | backend/services/platform_knowledge_service.py:51-103 | every chunk of a document has text iff no section is like that |
| `MarkdownLaws.FarApartHasEmptyChunk` | backend/services/platform_knowledge_service.py:51-103 | two long lines, three empty lines apart, make a document with a chunk without text |
| `MarkdownLaws.SomeDocumentHasAnEmptyChunk` | backend/services/platform_knowledge_service.py:51-103 | such a document exists |
| `MarkdownLaws.BlankParagraphBecomesEmptyChunk` | backend/services/platform_knowledge_service.py:87-102 | the smallest case: a blank paragraph between two oversized ones becomes a piece of its own without text |
| `MarkdownLaws.IsHeadingMeaning` | backend/services/platform_knowledge_service.py:69 | a heading is a line that starts, after whitespace, with one or more # and then a space or nothing |
| `MarkdownLaws.HeadingOfTitle` | backend/services/platform_knowledge_service.py:69-71 | # marks, a space and a title are a heading whose text is the title |
| `MarkdownLaws.SmallSectionIsOneChunk` | backend/services/platform_knowledge_service.py:76-82 | a section that fits is one chunk under its heading, its text as it stands |
| `MarkdownLaws.PackedChunksQuote` | backend/services/platform_knowledge_service.py:85-102 | a packed chunk is a part of its section's text, character for character |
| `MarkdownLaws.OnlyOversizedIsCut` | backend/services/platform_knowledge_service.py:87-95 | only a paragraph that alone exceeds the cap is cut, into slices of exactly the cap but for the last |
| `DocIndex.Index.StoredHash` | backend/services/platform_knowledge_service.py:135-141 | the hash of some stored row of the path, none iff there is no row |
| `DocIndex.Index.AddChunks` | backend/services/platform_knowledge_service.py:152-165 | the path holds exactly the rows of a from-scratch ingest of the text |
| `DocIndex.HashTellsText` | backend/services/platform_knowledge_service.py:134-144 | with collision-free hashes the stored hash tells whether the stored text is the current one |
| `DocIndex.Index.IngestFile` | backend/services/platform_knowledge_service.py:134-166 | skipped iff its chunks are stored already; either way the path holds exactly the current rows |
| `DocIndex.Index.IngestLocalDir` | backend/services/platform_knowledge_service.py:110-178 | every row after the ingest: current rows of readable files, old rows of unreadable ones, none of removed ones, other sources unchanged; and all four counters |
| `DocIndexLaws.IngestKeepsConsistent` | backend/services/platform_knowledge_service.py:110-178 | an ingest leaves a table the next one can start from |
| `DocIndexLaws.EmptyTableIsConsistent` | backend/services/platform_knowledge_service.py:110-178 | the empty table is one |
| `DocIndexLaws.IncrementalEqualsRebuild` | backend/services/platform_knowledge_service.py:110-178 | after any history of ingests, the rows of the source are those of a from-scratch ingest of the current directory, and other sources are untouched |
| `DocIndexLaws.UnreadableFilesKeepRows` | backend/services/platform_knowledge_service.py:128-132 | a file that cannot be read keeps its rows, a removed one loses them |
| `DocIndexLaws.UpToDateWritesNothing` | backend/services/platform_knowledge_service.py:142-144 | over an up-to-date table no chunk is written |
| `DocIndexLaws.SecondIngestIsQuiet` | backend/services/platform_knowledge_service.py:110-178 | a second run on unchanged files changes no row and writes no chunk |
| `DocIndexLaws.StoredRowMeaning` | backend/services/platform_knowledge_service.py:150-164 | a readable file has one row per chunk after an ingest: the redacted text of the chunk, its heading, the number of words of the redacted text, and the hash of the file |
| `DocIndexLaws.NothingIsStoredUnredacted` | backend/services/platform_knowledge_service.py:153-160 | over any history from the empty table every stored text went through redaction, and its words were counted after it |
| `DocIndexLaws.CountersMeaning` | backend/services/platform_knowledge_service.py:113-166 | files seen are all files; skipped are the readable ones whose chunks were all stored, indexed the other readable ones |
| `DocIndexLaws.ChunksWrittenMeaning` | backend/services/platform_knowledge_service.py:152-165 | chunks written is the number of rows written |
| `Lexical.DistinctTerms` | backend/ai/lexical.py:60 | the query terms, each once |
| `Lexical.CountFrequencies` | backend/ai/lexical.py:69-75 | the document frequency of every query term |
| `Lexical.ScoreDocument` | backend/ai/lexical.py:81-89 | the score loop computes the sum of the term scores |
| `Lexical.RelativeLengthIsNonNegative` | backend/ai/lexical.py:88 | no denominator is zero |
| `Lexical.IdfIsPositive` | backend/ai/lexical.py:87 | the idf of every term is positive |
| `Lexical.TermScoreBounds` | backend/ai/lexical.py:84-89 | a matched term adds something positive below (k1 + 1) times its idf |
| `Lexical.ScoreBounds` | backend/ai/lexical.py:82-91 | a score is 0 iff no term is shared, and else strictly between 0 and (k1 + 1) times the matched idf |
| `Lexical.SortedMeaning` | backend/ai/lexical.py:93 | the stable descending sort orders by score, ties in document order, and keeps the entries |
| `Lexical.OrderedIsUnique` | backend/ai/lexical.py:93 | that order determines the list |
| `Lexical.Bm25Rank` | backend/ai/lexical.py:54-94 | exactly the documents that share a query term, each once with its score, highest first, ties in document order |
| `Lexical.RankedScoresAreBounded` | backend/ai/lexical.py:54-94 | every returned score lies strictly between 0 and (k1 + 1) times the summed idf of its matched terms |
| `Lexical.ScoreIgnoresOrder` | backend/ai/lexical.py:82-89 | the score does not depend on the order in which the set of terms is visited |
| `Lexical.RankingIsUnique` | backend/ai/lexical.py:54-94 | so the result is one list for every such order |
| `LexicalLaws.CountMeaning` | backend/ai/lexical.py:80-84 | the count of a term is its multiplicity in the document |
| `LexicalLaws.DocFrequencyMeaning` | backend/ai/lexical.py:69-75 | the document frequency is the number of documents that contain the term |
| `LexicalLaws.IdfMeaning` | backend/ai/lexical.py:87 | the idf is the logarithm of (n + 1) / (df + 0.5) |
| `LexicalLaws.RarerWeighsMore` | backend/ai/lexical.py:87 | a rarer term weighs strictly more |
| `LexicalLaws.MoreOccurrencesScoreMore` | backend/ai/lexical.py:84-89 | at equal length, more occurrences of a term score strictly more |
| `LexicalLaws.ShorterScoresMore` | backend/ai/lexical.py:88 | at equal count, the shorter document scores strictly more |
| `LexicalLaws.OnceInAnAverageDocument` | backend/ai/lexical.py:88-89 | one occurrence in a document of average length is worth exactly the idf |
| `LexicalLaws.OkapiFormula` | backend/ai/lexical.py:43-44 | with k1 = 1.5 and b = 0.75: 2.5 f / (f + 0.375 + 1.125 len/avg) of the idf |
| `LexicalLaws.RarerMatchScoresMore` | backend/ai/lexical.py:82-89 | of two documents that match one of two terms each, equally often and alike otherwise, the one with the rarer term scores higher |
| `LexicalLaws.RarerMatchRanksFirst` | backend/ai/lexical.py:57-94 | and it comes first in every ranking |
| `ToolLoop.Conversation.Complete` | backend/services/assistant_service.py:550-562 | one request carrying the conversation so far and the tools, if any |
| `ToolLoop.Conversation.RunCalls` | backend/services/assistant_service.py:597-613 | the assistant message, then one answer per call in order; the log, the tool names and the citations follow the calls |
| `ToolLoop.Conversation.Ask` | backend/services/assistant_service.py:585-592 | a 400 on a request with tools is asked again without, once; the requests sent are those of a run that stops in this round |
| `ToolLoop.Conversation.OneRound` | backend/services/assistant_service.py:582-613 | one iteration ends the run with its outcome, or executes its calls, which only the first four can |
| `ToolLoop.Conversation.Run` | backend/services/assistant_service.py:564-614 | for every provider: at most four rounds execute calls, the final assertion is never reached, the requests, the messages, the logs and the outcome are determined by the replies |
| `ToolLoop.Conversation.RunWithoutTools` | backend/services/assistant_service.py:578-579 | one completion, returned or raised as it is |
| `ToolLoop.AnswerIsOutcome` | backend/services/assistant_service.py:593-597 | the returned token counts are the sums over all completions of the run |
| `ToolLoop.RunIsBounded` | backend/services/assistant_service.py:581-614 | at most five requests, of which at most one is a recovered rejection and all but a failing one are completions |
| `ToolLoop.UsedToolsMeaning` | backend/services/assistant_service.py:606-607 | the used tools are the non-empty names called, each once |
| `ToolLoop.AnswersMatchCalls` | backend/services/assistant_service.py:601-613 | the k-th answer carries the k-th call's id and result |
| `ToolLoop.BlocksAreWellFormed` | backend/services/assistant_service.py:597-613 | every tool message answers, in order, one call of the assistant message that opens its block |
| `ToolLoop.FirstRequest` | backend/services/assistant_service.py:579-585 | a run starts by sending the conversation as it is, with all tools |
| `ToolLoop.BlockExtends` | backend/services/assistant_service.py:599-613 | a round appends the assistant's message with its calls, then one answer per call with the call's own id and result |
| `ToolLoop.NextRequest` | backend/services/assistant_service.py:581-613 | every further request carries the one before it extended by that round, with the same tools, none after the fourth round |
| `ToolLoop.RetriedWithoutTools` | backend/services/assistant_service.py:586-592 | a provider that rejects the tools gets the same conversation once more without them |
| `ToolLoop.TokensMeaning` | backend/services/assistant_service.py:593-597 | the token totals are the sums over the completions, input and output apart |
| `ToolLoop.DirectAnswer` | backend/services/assistant_service.py:584-597 | an answer that asks for no tool at once is returned as it is, after one request |
| `ToolLoop.OtherErrorsEndTheRun` | backend/services/assistant_service.py:584-591 | any error but a 400 on a request with tools ends the run at once and is raised as it is |
| `ToolLoop.CitedMeaning` | backend/services/assistant_service.py:599-613 | citations come in the order of the calls |
| `ToolLoop.EveryKeyIsKept` | backend/services/assistant_service.py:416-425 | every key of the list is kept |
| `ToolLoop.NoKeyIsKeptTwice` | backend/services/assistant_service.py:416-425 | and none twice |
| `ToolLoop.FirstIsKept` | backend/services/assistant_service.py:416-425 | the first citation of a key is the one kept |
| `ToolLoop.DedupeCitations` | backend/services/assistant_service.py:416-425 | the first citation of every key, in order |
| `AssistantRoles.ThresholdTableAgrees` | backend/services/assistant_tools.py:73-103 | the assistant's threshold table and the API's tier function agree on every level |
| `AssistantRoles.TierOf` | backend/services/assistant_tools.py:394 | the tier of the highest level of a list that stands for a set of levels |
| `AssistantRoles.PlatformTools.OneMoreRow` | backend/services/assistant_tools.py:368-370 | one more membership row updates the cached maximum of its project |
| `AssistantRoles.PlatformTools.ProjectLevels` | backend/services/assistant_tools.py:357-372 | the cache maps each project of the user to the highest level held there |
| `AssistantRoles.PlatformTools.Entries` | backend/services/assistant_tools.py:423-438 | the joined rows of one group that the user may see |
| `AssistantRoles.PlatformTools.Groups` | backend/services/assistant_tools.py:419-440 | the cache lists exactly the visible groups with the user's levels |
| `AssistantRoles.PlatformTools.TogetherTheyStandForSeen` | backend/services/assistant_tools.py:386-401 | the two caches together give the user's levels through visible memberships |
| `AssistantRoles.PlatformTools.RoleForApp` | backend/services/assistant_tools.py:382-394 | admin, or the best tier of the user's visible memberships on the app |
| `AssistantRoles.PlatformTools.MaxRole` | backend/services/assistant_tools.py:396-401 | admin, or the best tier of all visible memberships |
| `AssistantRoles.PlatformTools.RoleReachesWhatIsHeld` | backend/services/assistant_tools.py:95-103 | the role ranks at least t iff some visible membership reaches t |
| `AssistantRoles.PlatformTools.Gate` | backend/services/assistant_tools.py:327-334 | dispatched iff the tool exists and some visible membership reaches its minimum |
| `AssistantRoles.PlatformTools.UsableMeaning` | backend/services/assistant_tools.py:319-325 | a tool is offered iff it exists and the user may use it |
| `AssistantRoles.PlatformTools.AvailableDefinitions` | backend/services/assistant_tools.py:319-325 | exactly the tools the gate lets through, in order |
| `AssistantRoles.PlatformTools.DiagnosableApp` | backend/services/assistant_tools.py:961-980 | passes iff environment and app are known, the app is allowed and a visible membership on it reaches developer |
| `AssistantRoles.PlatformTools.EnvVarKeysCheck` | backend/services/assistant_tools.py:876-893 | the same with maintainer for prod |
| `AssistantRoles.PlatformTools.GateNeverBlocksACheckThatPasses` | backend/services/assistant_tools.py:331-334 | a tool whose per-app check passes is never withheld by the gate |
| `AssistantRoles.MaxRoleCoversEveryApp` | backend/services/assistant_tools.py:382-401 | max_role is at least role_for_app for every app |
| `AssistantRoles.RoleNeverExceedsApi` | backend/services/assistant_tools.py:382-394 | the assistant's role never exceeds the API's tier |
| `AssistantRoles.RoleAgreesWithApi` | backend/services/assistant_tools.py:382-394 | role_for_app equals the effective tier iff no hidden system group adds to it, so always when the owning group is not hidden |
| `AssistantRoles.SystemGroupHidesTheRole` | backend/services/assistant_tools.py:432 | a maintainer through a system group only is a viewer to the assistant |
| `AssistantRoles.GateMeaning` | backend/services/assistant_tools.py:84-98 | platform health is for administrators; logs, pods, CI failures and variable names need a visible membership at 30 or above; every other tool is open |
| `AssistantRoles.KeysCheckMeaning` | backend/services/assistant_tools.py:876-893 | variable names need a visible membership on the app at 40 for prod and 30 for dev, dev being the default |
| `AssistantRoles.SeenMeaning` | backend/services/assistant_tools.py:357-440 | a visible membership is an active row of the user in the app's project, or in its owning group unless that is one of the four system groups |

## Left out

- Transport and libraries: HTTP, SQLAlchemy, hvac, python-gitlab and the Kubernetes client are maps with failures; token renewal and HTTP retries are not modelled.
- Database commits are assumed to succeed, but for the unique constraints a sync violates with its own rows; concurrent sessions that add the same row are not covered. A transaction is one step of the run models; inside it the code is modelled statement by statement.
- Clocks and endless worker loops: one tick or probe is one call, with its time or outcome as input.
- YAML text: files hold parsed documents, and loading what was dumped is assumed to give it back.
- Redaction, hashing, the logarithm and `tokenize` are parameters; hashes are assumed collision-free, the logarithm positive above 1, and arithmetic is over the reals, without rounding.
- Passwords, JWT, API keys, OAuth, notifications, audit records, settings, Prometheus, Loki, costs, scaffolding, CI injection, the frontend, the CLI and the scripts.
- Group deregistration, group path renames and re-linking a GitLab account to another user: the stated invariants are not meant to survive them. The same holds for changing an app's project or owning group.
- Granting, revoking and syncing are atomic steps with respect to each other in the console model; a grant that races a commit is not covered. Removing members, invitations and apps through the API is not among its steps.
- `deprovision`, `reprovision` as code, `status` and the realm baseline settings; reprovisioning appears in the issuer model as one more writer.
- GitLabSync.Mirror.SyncProject: runs the two member loops before the two invitation loops, while the code upserts invitations before it marks members as left; the two kinds of loop touch different rows.
- GitLabSync.Mirror.RunSync: does not model the discovery of subgroups before a run, nor the skipped run without a token; fetched lists are taken without duplicates, GitLab's answer for a project is the same for all its apps during one run, and a failed fetch of invitations counts as an empty list, as in the code. The flush that emitting a group event performs is left out: a run visits every group once and reads no group's rows after it.
- IssuerStability.AllWrittenIssuersAgree: speaks of the public URL an issuer starts with; the realm part is fixed by slug and environment. Administrators switching the global settings is not a step.
- Provisioning.External.Provision: other actors may create realms between the first read and the creation, and at no later point of the attempt.
- KeycloakInstances.Service.Upsert: the two answers for a concurrent change of the registry are one check of the unique cluster column.
- EnvVars.Service.WriteVariables: Vault does not fail here; failing writes are the subject of Provisioning. The kind of an app's client does not change.
- HealthWorker.Worker.ProcessCluster: events emitted on transitions are left out.
- ActivationOverlap.CommitIsCoherentIff: takes from SQLAlchemy that a commit writes the columns whose value differs from the loaded one.
- ConsoleService.Service.GrantConsoleAccess: Keycloak's part is one of three answers; the requests behind them are modelled in RealmAccounts.
- GitOps.Repository.UpsertIngress: a commit created between its read and its own commit is not modelled; the other writers likewise.
- Scale.Service.ApplyChanges: timestamps, actors and the best-effort ArgoCD sync are left out.
- Markdown.ChunkMarkdown: `max_tokens` below 1 is excluded, where Python's `range` raises.
- DocIndex.Index.IngestLocalDir: the order of the files is given; two files never have the same relative path.
- Lexical.Bm25Rank: `search` with its limit on the number of results is left out.
- ToolLoop.Conversation.Run: tool arguments stay text, and the audit log's shortening of them is left out.
- AssistantRoles.PlatformTools.RoleForApp: memberships are taken not to change while one question is answered, which is when the caches agree with the tables; application and group lookup by name, and the data-access setting of an app, are inputs.
