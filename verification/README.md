# Search operator: verified model

A Dafny model of the stateful parts of the search operator, and proofs about every run of them.
`dafny verify dfyconfig.toml` checks the whole project.

| file | what it models |
|---|---|
| `edge_index.dfy` | the SQL trigger that keeps the `interCluster` rows of `search.edges` equal to a join of `search.resources` with itself |
| `postgres_conf.dfy` | migration, merge and rollout hash of the `search-postgres` ConfigMap |
| `collector_configs.dfy` | CollectorConfigs, what their selectors match, and the overlap tests |
| `merge.dfy` | the merge of integration configs and `user-collector-config` into `merged-collector-config` |
| `admission.dfy` | the validating webhook |
| `collector_system.dfy` | runs of requests and merges together, the operator's own writes going through the webhook |
| `seeder.dfy` | the poll loop that applies the shipped integration configs |
| `lifecycle.dfy` | finalizer and cluster-scoped RBAC: a step machine with faults, crashes, stale reads and user actions |
| `reconcile.dfy` | the code of a reconcile, with others acting between its calls, shown to take only steps of that machine |
| `feature_markers.dfy` | global search and fine-grained RBAC: variables, conditions, console flags, markers on managed hubs |
| `readiness.dfy` | the fold of pod readiness into the status of the Search |
| `keyed.dfy`, `selections.dfy`, `text.dfy`, `values.dfy` | lists edited by key, filtering loops, string splitting, shared value types |

Code that changes things in place is a class whose methods follow the source branch by branch; each
method's `ensures` ties the new state to a specification function of the old one, and the theorems
are lemmas about those functions. A failing API call is a parameter ("faults"): each method says what
it leaves for every combination of them. NotFound and AlreadyExists follow from the modelled store.
`Reconcile.Controller` goes further: others act before each of its calls, its methods keep *any* property that
all steps of the machine keep, and a new controller starts with "reachable by a run of the machine".

Both ways a write brings the operator's copy up to date are modelled as the client library does it: a
successful update of the spec refreshes the status of the copy, and a successful status update its spec.

## What turned out false, and when it holds

- The edge index goes stale on some updates the trigger skips. `EdgeIndex.StatementExactIff` gives the
  exact condition for a statement, `EdgeIndex.QuietUpdateSafeIff` for one skipped update: the join must not
  see the difference. `_hostingSubscription` going from NULL to the empty string is such a difference,
  because `coalesce(.., '')` equates the two.
- A cleared source loses edges of *every* type, since AND binds before OR in the DELETE.
- A read of the postgres ConfigMap that fails with anything but NotFound, followed by an update that
  succeeds, replaces the user's `custom-postgresql.conf` by the bare header, and makes a settled ConfigMap
  change again (`PostgresConf.CustomSurvivesIff`, `PostgresConf.SettledStaysIff`,
  `PostgresConf.TransientReadErrorLosesSettings`).
- Migration drops a line whose text is only part of a default line (`PostgresConf.LineSurvivesIff`,
  `PostgresConf.MigrationDropsPartialLine`).
- `createOrUpdateDeployment` reports a failed update as success (`PostgresConf.FailedUpdateIsReportedAsSuccess`),
  so the pod annotation can stay behind the stored configuration; `PostgresConf.Operator.ReconcilePostgres` says
  exactly when.
- Applied says "merged successfully" before the merged config is written. It stays when that write fails or
  the webhook refuses it (`Merge.AppliedMeansMergedIff`, `Merge.AppliedWithoutMerge`,
  `CollectorSystem.AppliedThoughRejected`).
- A `user-collector-config` that carries the integration label is merged as a team's: its excludes are not
  filtered, and admission does not check them (`Merge.WholeSpecIsSafeIff`, `Merge.LabelledUserSuppresses`).
- A second merge writes nothing but the status, unless `merged-collector-config` itself carries the
  integration label and there is something to add; then it can grow without end (`Merge.SecondMergeIff`,
  `Merge.ListedMergedConfigGrows`, `Merge.GrowthStarts`).
- The webhook rejects the operator's own merged config exactly when an integration exclude conflicts with an
  integration include (`Admission.MergedWriteAdmittedIff`, `CollectorSystem.MergeGoesThroughIff`).
- The comment at `controllers/create_integration_collectorconfigs.go:158-161` promises that a removed backup label is
  restored. Its shipped value is empty and `hasDesiredLabels` cannot tell empty from absent, so alone it is
  not (`Seeder.LabelPresentIff`, `Seeder.LostBackupLabelStaysLost`). The same file calls the write
  unconditional; the code skips a config that already matches. `hasControllerOwnerRef` accepts any
  reference with the owner's UID, controller or not.
- Global search makes its markers before it stores the condition that leads to their removal. A reconcile
  keeps them tracked exactly when `FeatureMarkers.TrackedKeptIff` says; `FeatureMarkers.FailedCommitLeaks`
  is a run that leaks for good. If listing the clusters fails, the clean-up dereferences nil
  (`FeatureMarkers.FailedListPanics`).
- The pod name is cut without a bounds check, so a name without a dash panics (`Readiness.DashlessNamePanics`).
- `docs/ARCHITECTURE.md` says that deleting a Search cleans up ManagedServiceAccounts; `finalizeSearch` does
  not (`Lifecycle.FinalizingSparesMarkers`, `Lifecycle.DeletionLeavesMarkers`). The model follows the code.
- Nothing is left behind as long as the cache does not go back behind what was read from it. Most reads that
  do are harmless; where no Search carries the finalizer any more, one is unsafe exactly if its copy makes the
  operator create objects (`Lifecycle.SafeReadIff`, `Lifecycle.OldReadLeavesBehind`).

## Model

| member | source | states |
|---|---|---|
| EdgeIndex.Database.InterclusterEdges | controllers/create_pgconfigmap.go:126-172 | the trigger function, branch by branch, for one changed row |
| EdgeIndex.Database.Execute | controllers/create_pgconfigmap.go:173-176 | a multi-row statement: all row changes, then one firing per row in any order; the index is exact afterwards iff the skipped rows did not change the join among themselves |
| EdgeIndex.StatementExactIff | controllers/create_pgconfigmap.go:126-176 | for any batch and any firing order, the index equals the join over the new table iff no pair of unfired rows starts or stops being joined |
| EdgeIndex.MidStatement | controllers/create_pgconfigmap.go:126-176 | between two firings every pair with a fired endpoint is already right and every other pair is as before the statement |
| EdgeIndex.ConnectedIsRight | controllers/create_pgconfigmap.go:139-164 | the two INSERTs together give a row exactly the edges the join calls for, in both directions, with the source's cluster |
| EdgeIndex.FaithfulStatementExact | controllers/create_pgconfigmap.go:126-176 | statements whose skipped updates change nothing the join can see keep the index exact |
| EdgeIndex.StableUpdateIsFaithful | controllers/create_pgconfigmap.go:130-138 | if a uid fixes cluster, kind, namespace and name and the hosting value is never empty, every update is of that kind |
| EdgeIndex.QuietUpdateSafeIff | controllers/create_pgconfigmap.go:132-137 | skipping an update is safe in every state iff the join cannot see the difference |
| EdgeIndex.NullToEmptyGoesStale | controllers/create_pgconfigmap.go:132 | NULL to empty string is skipped and leaves some exact index wrong |
| EdgeIndex.JoinedByView | controllers/create_pgconfigmap.go:147-161 | what the join sees of a row: nothing, or cluster, namespace and name as source or as target |
| EdgeIndex.EveryRunIsExact | controllers/create_pgconfigmap.go:126-176 | in every state reachable by statements and the indexer's own writes the index is exact |
| EdgeIndex.SameResourcesSameIndex | controllers/create_pgconfigmap.go:139-164 | history independence: equal resources, equal interCluster rows, columns included |
| EdgeIndex.IndexRowColumns | controllers/create_pgconfigmap.go:143-161 | every interCluster row joins two stored Subscriptions and carries its source's cluster, so ON CONFLICT DO NOTHING keeps no wrong row |
| EdgeIndex.ForeignEdgesAfter | controllers/create_pgconfigmap.go:134-167 | edges of other types are never added, and removed iff their source was deleted or re-hosted |
| EdgeIndex.UntouchedEdges | controllers/create_pgconfigmap.go:130-169 | edges at no fired row stay, whatever the table holds |
| PostgresConf.UpdatePostgresConfigmap | controllers/create_pgconfigmap.go:254-279 | the migration loop and the merge, mutating the desired object |
| PostgresConf.Operator.CreateOrUpdateConfigMap | controllers/common.go:581-615 | what is stored and what the desired object holds after create, update or no write, for each fault |
| PostgresConf.Operator.CreateOrUpdateDeployment | controllers/common.go:740-768 | the deployment afterwards; a failed update is reported as success |
| PostgresConf.DeploymentOkMeansDesiredIff | controllers/common.go:740-768 | reported as success, the Deployment is as desired iff no update that was needed failed |
| PostgresConf.FailedUpdateIsReportedAsSuccess | controllers/common.go:760-767 | a concrete update that fails, changes nothing and is reported as success |
| PostgresConf.Operator.ReconcilePostgres | controllers/search_controller.go:260-270 | the pod annotation is the hash of the stored postgresql.conf iff no needed Deployment update failed unreported |
| PostgresConf.StoredIsDesired | controllers/common.go:594-613 | on every path without error the object later hashed holds what is stored |
| PostgresConf.ConfHasOneOfTwoShapes | controllers/create_pgconfigmap.go:254-279 | the stored conf is the default, or the default and the custom part exactly once |
| PostgresConf.AtMostTwoWrites | controllers/common.go:583-613 | from any stored ConfigMap and under any faults, repeated reconciles write at most twice, plus twice for each write that followed a failed read |
| PostgresConf.SettledStaysIff | controllers/common.go:583-613 | a settled ConfigMap is never written again iff no reconcile writes after a failed read |
| PostgresConf.TwoCleanReconcilesSettle | controllers/common.go:594-613 | after two reconciles without error conf is the merge of default and custom, and later ones write nothing iff none writes after a failed read |
| PostgresConf.CustomSurvivesIff | controllers/create_pgconfigmap.go:274-277 | over any run of changing defaults and faults the custom part ends as the bare header if some reconcile wrote after a failed read, and unchanged otherwise |
| PostgresConf.TransientReadErrorLosesSettings | controllers/common.go:583-608 | a concrete reconcile that loses the user's settings |
| PostgresConf.SettledConfHasNoHistory | controllers/create_pgconfigmap.go:269-278 | the settled ConfigMap depends only on the newest default and the custom part, whatever came before |
| PostgresConf.MigratedLines | controllers/create_pgconfigmap.go:261-267 | the migrated text splits into the header and the lines not in the default, in their order |
| PostgresConf.WholeTextMigratesIff | controllers/create_pgconfigmap.go:260-267 | the migrated text is the header followed by the whole original text iff no line of it occurs in the default |
| PostgresConf.NoLineIsLost | controllers/create_pgconfigmap.go:259-273 | after migration and one merge every original line occurs in the configuration |
| PostgresConf.LineSurvivesIff | controllers/create_pgconfigmap.go:263-272 | exactly when it is still a line of its own |
| PostgresConf.MigrationDropsPartialLine | controllers/create_pgconfigmap.go:262-266 | a concrete line that is gone after migration and merge |
| PostgresConf.MigrationThenMerge | controllers/create_pgconfigmap.go:259-273 | two reconciles of a ConfigMap with no custom part store that migrated text and its merge |
| CollectorConfigs.SetsIntersect | controllers/create_collectorconfig.go:118-127 | the wildcard-aware test of two lists |
| CollectorConfigs.RulesOverlap | controllers/create_collectorconfig.go:109-114 | both lists must share a value |
| CollectorConfigs.ExcludeOverlapsIntegrationIncludes | controllers/create_collectorconfig.go:90-105 | whether an integration include overlaps the rule |
| CollectorConfigs.OverlapIff | controllers/create_collectorconfig.go:107-127 | selectors overlap iff some concrete group and kind is matched by both |
| Merge.Hub.CreateOrUpdateMerged | controllers/create_collectorconfig.go:171-295 | the whole merge for any list order and any faults: store, writes and result |
| Merge.Hub.CollectTeams | controllers/create_collectorconfig.go:197-204 | the loop over team configs: rules in order, labels until the first failing patch |
| Merge.Hub.FinishMerge | controllers/create_collectorconfig.go:206-294 | the user's part and the final write |
| Merge.Hub.PatchBackupLabel | controllers/create_collectorconfig.go:29-44 | adds the label if the key is absent |
| Merge.Hub.UpdateUserStatus | controllers/create_collectorconfig.go:132-166 | the Applied condition; a failing update changes nothing |
| Merge.Hub.WriteMergedConfig | controllers/create_collectorconfig.go:251-294 | create, update if the spec differs, or nothing |
| Merge.KeepUserRules | controllers/create_collectorconfig.go:216-233 | the loop over the user's rules keeps the surviving ones and counts the rest |
| Merge.SortForgetsOrder | controllers/create_collectorconfig.go:188-191 | sorting distinct names gives one sequence whatever the list order |
| Merge.MergeForgetsListOrder | controllers/create_collectorconfig.go:177-204 | the outcome of a merge, writes included, does not depend on list order |
| Merge.MergeWrites | controllers/create_collectorconfig.go:193-293 | a successful merge writes all team rules in name order, then the user's surviving rules; no other spec changes, and none in a failing merge |
| Merge.KeptIsTheSurvivors | controllers/create_collectorconfig.go:217-233 | what is kept is an in-order selection at strictly ascending positions, of exactly the surviving rules |
| Merge.IncludesAreKept | controllers/create_collectorconfig.go:220-232 | no include is dropped |
| Merge.MergeIsSafe | controllers/create_collectorconfig.go:90-233 | no exclude in the user's part of the merged spec matches a group and kind that an integration include matches at merge time; the user's part is all of the user's config unless that carries the integration label |
| Merge.WholeSpecIsSafeIff | controllers/create_collectorconfig.go:177-233 | no exclude of the whole merged spec overlaps an integration include iff no listed config has one that does |
| Merge.LabelledUserIsNotFiltered | controllers/create_collectorconfig.go:177-204 | a user config that carries the integration label keeps every rule |
| Merge.LabelledUserSuppresses | controllers/create_collectorconfig.go:177-204 | a concrete merged spec with a user exclude that overlaps an integration include |
| Merge.AppliedAfterMerge | controllers/create_collectorconfig.go:183-245 | the Applied condition after a merge, for any faults: the verdict on the user's rules iff the status update is reached and succeeds, else what it was; the final write has no part in it |
| Merge.AppliedIsHonest | controllers/create_collectorconfig.go:132-166 | once written, Applied is True iff no rule was dropped, and its messages count the dropped rules, whatever becomes of the final write |
| Merge.AppliedMeansMergedIff | controllers/create_collectorconfig.go:236-294 | once Applied is written, the new merged spec is stored iff the final write passes or it was stored before, and the merge succeeds iff that write passes or is not needed |
| Merge.AppliedWithoutMerge | controllers/create_collectorconfig.go:236-276 | a concrete merge that leaves Applied True and no merged config |
| Merge.UnchangedIff | controllers/create_collectorconfig.go:193-233 | a labelled merged config is rewritten as it was iff there is nothing to add to it |
| Merge.SecondMergeIff | controllers/create_collectorconfig.go:284-292 | a second merge sends only the status iff the merged config is unlabelled, or no other team config has rules and none of the user's rules survives |
| Merge.ListedMergedConfigGrows | controllers/create_collectorconfig.go:177-233 | n merges append the user's include n times to a labelled merged config, for every n |
| Merge.GrowthStarts | controllers/create_collectorconfig.go:177-233 | a concrete store from which that happens |
| Admission.ValidateProtectedKinds | api/v1alpha1/collectorconfig_webhook.go:328-380 | no errors iff the selector names no protected kind of its groups and no wildcard over one |
| Admission.ValidateExcludeRule | api/v1alpha1/collectorconfig_webhook.go:259-324 | no errors iff the exclude rule has no extras and its selector is safe |
| Admission.StaticProtectionIsExact | api/v1alpha1/collectorconfig_webhook.go:226-380 | a non-empty selector passes the static checks iff it matches no protected group, no ManagedCluster and no core Namespace |
| Admission.ValidateInclude | api/v1alpha1/collectorconfig_webhook.go:142-204 | the checks on include rules |
| Admission.ValidateRule | api/v1alpha1/collectorconfig_webhook.go:123-210 | all checks on one rule |
| Admission.ValidateCollectorConfig | api/v1alpha1/collectorconfig_webhook.go:118-217 | no errors iff every rule is valid |
| Admission.ValidExcludesAreHarmless | api/v1alpha1/collectorconfig_webhook.go:256-324 | an exclude of an admitted config matches no protected resource type |
| Admission.WebhookSetsIntersect | api/v1alpha1/collectorconfig_webhook.go:603-616 | the webhook's copy computes the same test |
| Admission.ValidateExcludeAgainstIntegrationConfigs | api/v1alpha1/collectorconfig_webhook.go:542-601 | admits without client, for integration configs, without excludes, when listing fails, and otherwise iff no exclude conflicts |
| Admission.OperatorOwned | api/v1alpha1/collectorconfig_webhook.go:493-500 | some owner reference is a controller |
| Admission.RejectIfProtected | api/v1alpha1/collectorconfig_webhook.go:504-531 | an owned config may be touched by accounts of its namespace, and deleted by the garbage collector |
| Admission.PrefixIdentifiesNamespace | api/v1alpha1/collectorconfig_webhook.go:522-528 | the prefix test accepts the accounts of that one namespace, namespaces containing no colon |
| Admission.ValidateCreate | api/v1alpha1/collectorconfig_webhook.go:57-73 | the three checks of a create |
| Admission.ValidateUpdate | api/v1alpha1/collectorconfig_webhook.go:76-100 | old and new object are both checked for protection |
| Admission.ValidateDelete | api/v1alpha1/collectorconfig_webhook.go:103-115 | only protection is checked |
| Admission.ConflictIsADrop | api/v1alpha1/collectorconfig_webhook.go:573-595 | the webhook sees a conflict in a config iff the merge would drop one of its rules |
| Admission.WebhookAgreesWithMerge | api/v1alpha1/collectorconfig_webhook.go:533-601 | with the same configs listed, the overlap check admits an unlabelled user config iff the merge keeps all its rules and reports Applied, whatever becomes of the final write |
| Admission.MergedWriteAdmittedIff | api/v1alpha1/collectorconfig_webhook.go:546-600 | the operator's own merged config is admitted iff no integration exclude conflicts with an integration include |
| Admission.TeamExcludeBlocksMerge | api/v1alpha1/collectorconfig_webhook.go:546-549 | an admitted team config whose merged result is rejected |
| CollectorSystem.EveryRunIsHarmless | api/v1alpha1/collectorconfig_webhook.go:219-324 | over every run of requests and merges, with any faults, no stored exclude matches a protected resource type |
| CollectorSystem.OutsidersCannotTouchOwned | api/v1alpha1/collectorconfig_webhook.go:502-531 | requests by others, however many, leave operator-owned configs exactly as they were |
| CollectorSystem.MergeGoesThroughIff | controllers/create_collectorconfig.go:198-292 | without API faults a merge succeeds iff the webhook lets its label patches and its merged config through |
| CollectorSystem.AppliedThoughRejected | controllers/create_collectorconfig.go:236-292 | when integration configs conflict, a merge with something to write is refused by the webhook and Applied is written all the same |
| Seeder.HasDesiredLabels | controllers/create_integration_collectorconfigs.go:197-207 | label lookups with the zero-value default |
| Seeder.HasControllerOwnerRef | controllers/create_integration_collectorconfigs.go:183-193 | any reference with the owner's UID counts |
| Seeder.Cluster.ApplyOneIntegrationCollectorConfig | controllers/create_integration_collectorconfigs.go:83-179 | what one file does to the store, the write log and the error, for each fault |
| Seeder.Cluster.ApplyIntegrationCollectorConfigs | controllers/create_integration_collectorconfigs.go:48-78 | the loop over files goes on after an error and returns the first |
| Seeder.WriteSettlesIff | controllers/create_integration_collectorconfigs.go:105-178 | a written config has the shipped spec and labels, and needs no further write iff its integration label and owner could be set |
| Seeder.LabelPresentIff | controllers/create_integration_collectorconfigs.go:148-165 | a shipped label is there after an apply iff the config was missing, or did not count as settled, or had it already; always so if its value is not empty |
| Seeder.LostBackupLabelStaysLost | controllers/create_integration_collectorconfigs.go:148-164 | a config that lost only the backup label is left without it |
| Seeder.IntegrationLabelIff | controllers/create_integration_collectorconfigs.go:197-206 | the integration label is missed only for an unlabelled config whose manifest ships no labels |
| Seeder.FilesAreIndependent | controllers/create_integration_collectorconfigs.go:62-77 | with distinct names every file fares as if it were applied alone |
| Seeder.FirstErrorIsReturned | controllers/create_integration_collectorconfigs.go:62-77 | the result is the error of the first file that failed |
| Seeder.SuccessfulPassSettles | controllers/create_integration_collectorconfigs.go:103-207 | a pass without error leaves every shipped config overridden or as shipped |
| Seeder.SecondPassWritesNothing | controllers/create_integration_collectorconfigs.go:148-153 | an immediate second pass writes nothing |
| Seeder.ResolveSearch | controllers/integration_collectorconfig_seeder.go:102-130 | the one Search of the operator's name, and whether it is paused |
| Seeder.PollOnce | controllers/integration_collectorconfig_seeder.go:58-75 | what one poll leaves, writes and answers |
| Seeder.Start | controllers/integration_collectorconfig_seeder.go:52-83 | the loop leaves the stores and makes the writes of its polls in order, and stops at the first that succeeds |
| Seeder.PollsAreSafe | controllers/integration_collectorconfig_seeder.go:57-75 | over any polls: each leaves what its pass leaves; one that does not find exactly one unpaused Search changes and writes nothing; a poll is the last iff its pass succeeds |
| Seeder.PolledWrites | controllers/integration_collectorconfig_seeder.go:57-82 | all writes are those of the polls made, in order; none comes after the successful pass |
| Seeder.TargetIff | controllers/integration_collectorconfig_seeder.go:111-129 | a poll goes on to a pass iff the list shows exactly one Search of that name, and it is not paused |
| Seeder.WritingPollHasOneSearch | controllers/integration_collectorconfig_seeder.go:59-70 | a poll that changes or writes anything found exactly one Search of that name, not paused |
| Seeder.PollChangesOnlyShipped | controllers/create_integration_collectorconfigs.go:141-146 | a poll changes only shipped names in the Search's namespace, never one with manual-override, and removes nothing |
| Lifecycle.NothingIsLeftBehind | controllers/search_controller.go:111-411 | over every run with faults, crashes, reads from a lagging cache, any acts of the features and user actions between any two calls, a tracked RBAC object exists only while a Search carries the finalizer; a read may be old if it is not older than the last one, or creates nothing, or its Search still carries the finalizer |
| Lifecycle.TheSearchIsStillThere | controllers/search_controller.go:669-705 | with Searches in one namespace only, it is that Search |
| Lifecycle.StepKeepsInv | controllers/search_controller.go:111-411 | every step keeps the invariant behind it: a stored version that could still be read and make the operator create objects belongs to a Search that still carries the finalizer |
| Lifecycle.SafeReadIff | controllers/search_controller.go:115-224 | where no Search carries the finalizer, a reconcile begun with any copy ever stored stays safe iff the copy is deleted, paused or without the finalizer |
| Lifecycle.OldReadLeavesBehind | controllers/search_controller.go:115-224 | such a state is reached: a run with one old read leaves a role without a Search |
| Lifecycle.FinalizingEnds | controllers/search_controller.go:616-693 | from any point of finalizing, undisturbed, the six objects and the finalizer go and foreign finalizers stay |
| Lifecycle.FinalizingSparesMarkers | controllers/search_controller.go:616-693 | from the moment a Search is being finalized, with faults, crashes and others acting, a ManagedServiceAccount is there iff others left it there: finalizing removes none |
| Lifecycle.MarkerStepIff | controllers/search_controller.go:111-411 | in any step a ManagedServiceAccount appears or goes only by others or by a feature in its place in a reconcile |
| Lifecycle.DeletionLeavesMarkers | controllers/search_controller.go:616-693 | a run that ends without any Search and with such an account still there |
| Reconcile.Controller.Reconcile | controllers/search_controller.go:111-411 | whatever others do between its calls and however old its copy: only machine steps, no finalizer lost but by a completed deletion, and after that none of the six objects is there, even when paused. Undisturbed and up to date: the whole resulting state, and no failure while the API server answers |
| Reconcile.Controller.SetFinalizer | controllers/search_controller.go:669-705 | finalizes, adds the finalizer, or finds it there; a failure leaves it |
| Reconcile.Controller.FinalizeSearch | controllers/search_controller.go:616-654 | all six objects are gone if it reports success, whatever others do meanwhile; it stops at the first failing call |
| Reconcile.Controller.RemoveFinalizer | controllers/search_controller.go:682-690 | takes off the finalizer and no other, unless the Search changed since it was read |
| Reconcile.Controller.AddFinalizer | controllers/search_controller.go:694-703 | adds the finalizer, unless the Search changed since it was read |
| Reconcile.Controller.ReleaseAddon | controllers/cleanup.go:17-50 | takes out the first Search among the addon's owners and nothing else |
| Reconcile.Controller.DeleteFinal | controllers/cleanup.go:52-92 | a missing object counts as deleted |
| Reconcile.Controller.DropLegacyObject | controllers/search_controller.go:393-400 | the legacy role or binding is gone, or the reconcile ends |
| Reconcile.Controller.CreateUpdateRole | controllers/create_rolesbindings.go:16-48 | the role exists with the wanted rules, or nothing changed |
| Reconcile.Controller.CreateRoleBinding | controllers/create_rolesbindings.go:50-97 | the binding is as wanted, roleRef included; a failure can leave it deleted |
| Reconcile.Controller.Save | controllers/global_search_setup.go:542-558 | the Search is saved only if a feature changed it, and not if others did since it was read |
| Reconcile.Controller.Mark | controllers/global_search_setup.go:301-323 | a marker that is there already is kept and is no failure; a failing call does not end the reconcile |
| Reconcile.Controller.Unmark | controllers/global_search_setup.go:431-447 | a marker that is not there is no failure; a failing call does not end the reconcile |
| Reconcile.Controller.RunFeatures | controllers/search_controller.go:338-364 | the features' acts one after the other: markers, and as many updates of the Search as they make |
| Reconcile.SettledIsInPlace | controllers/search_controller.go:188-224 | after a reconcile that ran through all RBAC objects are as wanted and the legacy pair is gone |
| Reconcile.SettledStays | controllers/create_rolesbindings.go:16-97 | another reconcile, whatever its features do, changes no RBAC object |
| Reconcile.SettledSparesOthers | controllers/search_controller.go:188-224 | every tracked object is there afterwards, and the addon's binding, which a reconcile does not make, is as it was |
| Reconcile.ReachableIsSafe | controllers/search_controller.go:111-411 | every state the controller leaves satisfies the invariant |
| Keyed.LastEditWins | controllers/global_search_setup.go:497-536 | over any run of upserts and removals a key holds what its last edit gave it |
| Keyed.UntouchedKeysStay | controllers/global_search_setup.go:497-536 | over any run all other entries keep value and order |
| Keyed.EditsKeepDistinct | controllers/virtual_machines_setup.go:367-389 | over any run names and types stay distinct |
| Keyed.DropRemovesAllIff | controllers/fine_grained_rbac.go:68-82 | a removal leaves no entry of the key iff there was at most one |
| FeatureMarkers.Operator.SearchAPIEnvVar | controllers/global_search_setup.go:497-536 | the in-place edit of the variables; true iff nothing changed |
| FeatureMarkers.Operator.UpdateSearchApiDeployment | controllers/global_search_setup.go:542-558 | the stored Search and the copy after the edit, for each fault |
| FeatureMarkers.Operator.UpdateStatusCondition | controllers/virtual_machines_setup.go:367-399 | the upsert of a condition and its commit |
| FeatureMarkers.Operator.RemoveStatusCondition | controllers/fine_grained_rbac.go:68-82 | the removal of a condition and its commit |
| FeatureMarkers.Operator.CommitSearchCRInstanceState | controllers/global_search_setup.go:593-604 | a status update stores the status or nothing |
| FeatureMarkers.Operator.UpdateConsoleConfig | controllers/global_search_setup.go:467-493 | only the flag changes, and only if needed |
| FeatureMarkers.Operator.IsManagedHub | controllers/global_search_setup.go:254-277 | which listed clusters are managed hubs |
| FeatureMarkers.Operator.EnableGlobalSearch | controllers/global_search_setup.go:222-297 | every step is tried, and the result is ok iff none failed |
| FeatureMarkers.Operator.DisableGlobalSearch | controllers/global_search_setup.go:406-462 | every deletion is tried; a failed list panics |
| FeatureMarkers.Operator.ReconcileGlobalSearch | controllers/global_search_setup.go:73-153 | the whole new state and result, for each combination of faults |
| FeatureMarkers.RemovalMeansClean | controllers/global_search_setup.go:121-147 | the condition goes only after the list succeeded and no listed cluster has an account or a work, the flags and the variable being off too |
| FeatureMarkers.CleanupSucceeds | controllers/global_search_setup.go:121-152 | without faults a disabling reconcile removes the condition |
| FeatureMarkers.TrackedKeptIff | controllers/global_search_setup.go:76-152 | a reconcile keeps markers covered by a stored condition iff it neither fails to store a new one nor misses an unlisted cluster |
| FeatureMarkers.MarkersStayTracked | controllers/global_search_setup.go:73-153 | over any run every marker is covered by a stored condition in all states iff no reconcile of the run leaks |
| FeatureMarkers.OrderlyRunsStayTracked | controllers/global_search_setup.go:73-153 | a sufficient condition known in advance: clusters stay listed and status updates of enabling reconciles succeed |
| FeatureMarkers.FailedCommitLeaks | controllers/global_search_setup.go:100-111 | one failed status update, then the annotation taken away: the marker stays for good |
| FeatureMarkers.LeakIsNeverCleaned | controllers/global_search_setup.go:113-122 | without the condition no reconcile with the feature off touches a marker |
| FeatureMarkers.FailedListPanics | controllers/global_search_setup.go:425-430 | a concrete clean-up that panics with everything still in place |
| FeatureMarkers.OtherConditionsKept | controllers/global_search_setup.go:560-590 | whatever fails, all other conditions keep value and order, and types stay distinct |
| FeatureMarkers.OtherVariablesKept | controllers/global_search_setup.go:497-536 | whatever fails, all other variables keep value and order, and names stay distinct |
| FeatureMarkers.Operator.ReconcileFineGrainedRBAC | controllers/fine_grained_rbac.go:17-66 | state and result, for each fault |
| FeatureMarkers.RbacOkMeansStored | controllers/fine_grained_rbac.go:17-66 | success means that the flag is stored as the annotation wants it, and the condition too unless its update failed |
| FeatureMarkers.RbacMarkersAgree | controllers/fine_grained_rbac.go:17-66 | without faults the stored flag and the stored condition both say whether the feature is on |
| FeatureMarkers.RbacRoundTrip | controllers/fine_grained_rbac.go:17-82 | switching on and off again restores the Search |
| Readiness.Instance.UpdateStatusCondition | controllers/common.go:821-874 | the fold over pods and the replacement in the status; panics iff some name cannot be cut |
| Readiness.Instance.UpdateStatus | controllers/search_controller.go:575-599 | without pods the component is reported as not ready |
| Readiness.DashlessNamePanics | controllers/common.go:826-827 | a concrete pod name that cannot be cut |
| Readiness.ReadyIffAllReady | controllers/common.go:825-856 | reported iff some pod reports, and ready iff no pod says otherwise |
| Readiness.LastFailureIsReported | controllers/common.go:828-832 | it is the last failing pod whose condition is reported |
| Readiness.OnlyOwnConditionChanges | controllers/common.go:857-873 | pods of one component replace that component's condition and nothing else |

## Left out

- EdgeIndex.ValidChange: an update that changes a row's uid is not modelled; the indexer keys its rows by uid.
- EdgeIndex.Database.Execute: statements run one after the other; concurrent transactions and their isolation are not modelled.
- CollectorConfigs.Spec: `collectNamespaces` is opaque, it is only copied.
- Merge.Hub.CreateOrUpdateMerged: other writers do not act between its list and its patches, and there is no write conflict beyond a failing write.
- Admission.ValidateInclude: the checks of a single field (name pattern, JSONPath syntax, data type) are one predicate parameter.
- Seeder.Cluster.ApplyIntegrationCollectorConfigs: parsing of a manifest is part of its input; the entries come sorted, as the directory is read.
- PostgresConf.Operator.CreateOrUpdateConfigMap: the ConfigMap's labels are reduced to the backup label, and the hash is a parameter.
- Lifecycle.NothingIsLeftBehind: one worker; only the operator removes its finalizer and only it creates the tracked objects; the newest version read counts across restarts of the operator.
- Reconcile.Controller.Reconcile: calls that touch neither the Search nor its RBAC are one call that may fail; what the features do is a list of acts chosen freely, not the decisions of FeatureMarkers, which may depend on which of their calls failed.
- Reconcile.Controller.CreateUpdateRole: a role or binding changed by others since it was looked at is overwritten; the API server's version check on it is a failing call.
- FeatureMarkers.Operator.ReconcileGlobalSearch: the text of an error and the time are inputs; a console ConfigMap has a data section.
- `reconcileVirtualMachineConfiguration`: the same two loops as global search over all clusters, with another pair of markers; its status upsert is FeatureMarkers.Operator.UpdateStatusCondition.
- `global-search-user` is made by a reconcile and not deleted by finalizeSearch, so it is not among the tracked objects.
- The notify trigger, the read-only roles and the shell scripts in the postgres ConfigMap.
- Deployments other than the postgres one's hash annotation, services, NetworkPolicies, service monitors, alert rules, PVC set-up.
- TLS profiles, resource defaults, image checks, the addon framework, leader election, watches and caches.
- Collisions between integration teams' rules: the source leaves them for later.
- How the collector evaluates the merged rules is not part of this model; only selector matching is used.
