# Verified models of the Aiven operator's protocols

The operator keeps resources at Aiven in step with Kubernetes objects. Its hard parts are protocols that are
retried, interrupted and interleaved: a credential rotation that saves its intent in a Secret before it acts, schemas
that register in the order of their references, annotations that two controllers write, finalizers that hold remote
resources, a work queue that is lost on restart. This project models these protocols and proves what they promise, for every
run. `dafny verify dfyconfig.toml` checks all of it.

Three assumptions recur.

- **The Kubernetes API** is a store of versions with compare-and-swap on the resource version. A write that changes nothing keeps the
  version. Reads come from a cache and may return any earlier version, where a module says so.
- **A call that changes something** ends in one of three ways (`Base.Fate`): acknowledged, applied but reported as a failure,
  or not applied. A process that dies between two effects is a run that stops there.
- **The Aiven API** is whatever it wants to be within the answers that the code tells apart.

Most protocols appear twice. A machine with `Next`, `Run` and an inductive invariant says what can happen, and lemmas about its runs
say what is promised. Next to it, classes with the source's own fields and loops do one pass; each method is proved to be a run of the
machine, or to compute a specification function that the lemmas are about.

| Modules | Subject |
|---|---|
| `RotationProtocol`, `RotationGuarantees`, `RotationReconciler` | two-user credential rotation |
| `SchemaGraph`, `SchemaRegistry`, `KafkaSchemas`, `KafkaSchemaPasses`, `KafkaSchemaTracking`, `KafkaSchemaOrder`, `KafkaSchemaFixedSpecs`, `KafkaSchemaConvergence`, `KafkaSchemaFixpoint`, `KafkaSchemaStaleness`, `KafkaSchemaController`, `CompatibilityOverride` | schemas that reference each other, and who owns a subject's compatibility level |
| `AnnotationPatch`, `Numerals`, `Invalidation`, `WatchedReconciler`, `SecretWatch` | passes of the managed reconciler beside the watch controller that invalidates their result |
| `ManagedLifecycle` | finalizer, remote resource and deletion policy |
| `SecretFinalizerGC`, `SecretGCController` | protection of token Secrets |
| `SharedServiceUsers`, `ServiceUserController` | several resources for one service user |
| `GrantStatements`, `GrantRights`, `ClickhouseGrantController`, `Slices` | ClickHouse grants as statements and as rights |
| `LegacyService`, `LegacyPasses`, `LegacyReconciler` | readiness, connection Secrets and finalizers of services |
| `OpenSearchAcl`, `TechEmails` | comparisons of what is desired with what is reported |

## Where the code promises less than one would expect

These are properties of the code as it is. Each comes with a run or a family of runs that exhibits it, and with the condition under
which it does not happen.

- Two Secret changes within one second: the second trigger leaves the object as it is, because its timestamp counts seconds. A pass
  that is already applying the older password can then finish and mark the object ready
  (`Invalidation.SecondTriggerOfASecondIsLost`, and `Invalidation.HiddenTriggerIsLost` for every state in which a trigger does not
  change an object that lacks the mark). A trigger fences all passes under way exactly if it changes the object, or none of them holds
  the current one (`Invalidation.TriggerFences`).
- The watch controller patches with the difference to the copy that it read. A copy from before the object was marked ready gives a
  patch that does not remove the mark, and the object stays ready. This can happen in every reachable state with a ready object
  (`Invalidation.OldCopyLosesTheTrigger`, `Invalidation.ReadyIsReached`); the mark survives a trigger exactly if the copy lacks it
  (`Invalidation.TriggerFences`).
- The watch controller logs a trigger that fails and reports success, so that change is not retried. A marked
  object loses its mark exactly if the trigger got through and was made from a copy with the mark
  (`SecretWatch.InvalidatedExactlyIfReached`).
- The token Secret's finalizer can go although an object has just come to name the Secret. This happens exactly if some object was
  made to name it after its kind was listed, and names it still (`SecretFinalizerGC.ReleasedEarlyExactlyIfOvertaken`), and any object
  of an enabled kind can do that in any state in which all kinds are listed (`SecretFinalizerGC.AnyObjectCanOvertake`). A run
  leads there for every object and every Secret in its namespace (`SecretFinalizerGC.OvertakenPassReleasesTooEarly`).
- A ServiceUser that is being deleted takes its user away from another resource exactly if that resource was created after the
  deletion pass had looked for others, and nobody has asked to delete it (`SharedServiceUsers.NoUserTakenAway`). Any new resource can
  do that, and the resource may have had its live pass by then (`SharedServiceUsers.AnyResourceCanOvertake`,
  `SharedServiceUsers.OvertakenDeletionIsReached`).
- A ServiceUser leaves its user to a duplicate even if the duplicate has no finalizer yet; such a duplicate can disappear without a
  deletion pass, and the user stays at Aiven (`SharedServiceUsers.LeakIsReached`). When all resources of a user are gone, it is left
  over exactly if a pass left it to others none of which would ever delete it, and no resource has answered for it since
  (`SharedServiceUsers.LastOneRemovesTheUser`).
- A grant whose revocation is refused as a bad request or as not found counts as revoked. If the statement named several grantees and
  one is gone, the others keep what they had (`GrantRights.RefusedRevokeKeepsOthersRights`, exact condition in
  `GrantRights.RefusalsMatter`). A right that existed before the operator and was named by an earlier spec is revoked with it
  (`GrantRights.UnmanagedRightsStay`, exact condition, for the right and for its grant option).
- A pass on a schema that stores its status and then loses its annotations leaves the old fingerprint beside the new version. If it
  had resolved a reference from an old read, the schema ends up ready, with a stale reference that no pass ever repairs
  (`KafkaSchemaStaleness.StaleFixpointIsReached`). After any run, a reference of a schema that no pass changes is current exactly if
  the last pass that registered the schema was not torn, or tore nothing that matters
  (`KafkaSchemaFixpoint.CurrentExactlyIfHarmless`). While specs do not change this cannot happen at all, in no reachable state and for
  no graph of references (`KafkaSchemaFixedSpecs.WhatIsRegisteredIsCurrent`).
- A state that no pass changes can also hold a stale reference where a referenced schema waits for one that does not exist: two edits of
  that schema lead there from every start (`KafkaSchemaStaleness.ShutGatesHideAStaleReference`). It cannot where the gate is open.
- A pass of a legacy service whose first write is refused leaves the service ready without a Secret of its own exactly if it was so
  before, nobody has touched it, and the pass did not get as far as writing the Secret; the next pass takes the mark away
  (`LegacyService.FailedWriteBack`).
- An edit of a legacy service's spec made during a pass is overwritten by the write-back, which takes over the resource version it has
  just read and so meets no conflict. The edit survives exactly if the pass has nothing to write or its first write is refused
  (`LegacyService.EditSurvivesExactlyIfNothingIsWritten`). The comment at `controllers/basic_controller.go:233` speaks of resolving
  the conflict.
- The documentation of `KafkaSchema` says that references must form an acyclic graph and that admission does not check it
  (`api/v1alpha1/kafkaschema_types.go:42`, `api/v1alpha1/kafkaschema_types.go:100-101`). The code needs no check: a cycle is just
  never registered (`KafkaSchemaOrder.CyclesAreNeverRegistered`).

## Model

| member | source | states |
|---|---|---|
| `RotationProtocol.NextKeepsInv` | controllers/serviceuserrotation_controller.go:186-259 | Every effect of a pass, with each outcome, and every edit by others keeps the invariant that relates the Secret, the accepted passwords, the history of publications and the clock. |
| `RotationProtocol.ReachableInv` | controllers/serviceuserrotation_controller.go:54-60 | The invariant holds in every reachable state, whatever was read from the cache and wherever a pass ended. |
| `RotationProtocol.NextUsernameAlternates` | controllers/serviceuserrotation_controller.go:210-211 | The next user of a pool of two is the other one, and the first when the Secret names none. |
| `RotationGuarantees.PublishedPairWorks` | controllers/serviceuserrotation_controller.go:208-250 | In every reachable state the pair published in the Secret is the one the service accepts. |
| `RotationGuarantees.Handover` | controllers/serviceuserrotation_controller.go:194-241 | Consecutive publications are at least the interval apart, and the previous pair keeps working for an interval after it was replaced, also when rotations are interrupted. |
| `RotationGuarantees.UsersAlternate` | controllers/serviceuserrotation_controller.go:209-213 | Published users strictly alternate, beginning with the first of the pool. |
| `RotationGuarantees.SentOnlyWhileSaved` | controllers/serviceuserrotation_controller.go:215-229 | What is sent to Aiven is, at that moment, saved in the Secret as the pending pair, and every pair ever sent was saved first. |
| `RotationGuarantees.PlantedPairBringsNothingForward` | controllers/serviceuserrotation_controller.go:194-213 | Whatever incomplete or foreign pending pair somebody leaves in the Secret, in every run after it the pair is not sent, only valid pairs are, and the next publication keeps its time and its user. |
| `RotationGuarantees.InvalidPendingPairIsIgnored` | controllers/serviceuserrotation_controller.go:194-213 | To one pass, the Secret counts as if such a pair were not there. |
| `RotationGuarantees.SavedPairIsPublishedNext` | controllers/serviceuserrotation_controller.go:147-148 | Once a pair is saved it is the next one published, through any failures, crashes and stale reads. |
| `RotationGuarantees.UninterruptedPublishes` | controllers/serviceuserrotation_controller.go:208-250 | From every state with a saved pair, a pass without faults publishes exactly that pair and clears it. |
| `RotationGuarantees.InterruptionsDoNotShow` | controllers/serviceuserrotation_controller.go:194-250 | However often it was interrupted, a rotation ends with the same user and password in the Secret and at Aiven as an uninterrupted one. |
| `RotationGuarantees.RotationWrittenOut` | controllers/serviceuserrotation_controller.go:194-213 | Key by key: a rotation is due exactly if a valid pair is pending, nothing was published yet, or the interval has passed; the pair is the pending one or a new one for the other user. |
| `RotationGuarantees.PassPublishesFromTheDeadlineOn` | controllers/serviceuserrotation_controller.go:194-250 | From every reachable state, a pass without faults publishes the next pair if and only if nothing was published yet or the interval since the last publication has passed; otherwise it refreshes. |
| `RotationReconciler.RefreshRotationSecret` | controllers/serviceuserrotation_controller.go:262-299 | It succeeds exactly when component, user and the Kafka certificate and key are there, and the Secret then shows host, port, certificate, key and CA of the first component and the first user that match; a failure leaves the Secret object as it was. |
| `RotationReconciler.DetailsAvailableExactly` | controllers/serviceuserrotation_controller.go:264-282 | When the details are available, in terms of the components and users that the API returns. |
| `RotationReconciler.EndpointsMeaning` | controllers/kafka_controller.go:131-144 | An optional Kafka endpoint is among the details exactly if a component offers it. |
| `RotationReconciler.LastEndpointIsShown` | controllers/kafka_controller.go:131-144 | The host and port shown for an endpoint are those of the last component that offers it. |
| `RotationReconciler.NoEndpointIsStale` | controllers/kafka_controller.go:146-161 | After a refresh a Kafka Secret has exactly the optional endpoints that the service has now, and all keys that are not connection details stay. |
| `RotationReconciler.AddKafkaEndpointDetails` | controllers/kafka_controller.go:131-144 | The loop computes the endpoints, the last component of a kind counting. |
| `RotationReconciler.Cluster.EnsureSecret` | controllers/serviceuserrotation_controller.go:149-171 | It returns the owned Secret as some read shows it or the unsaved template, and refuses a Secret that something else controls. |
| `RotationReconciler.Cluster.Rotate` | controllers/serviceuserrotation_controller.go:208-242 | Saving, resetting and promoting a pair are a run of the protocol, with early exits where a call fails. |
| `RotationReconciler.Cluster.ReconcileCredentials` | controllers/serviceuserrotation_controller.go:186-259 | The pass is a run of the protocol. A pass that succeeds has added exactly one publication if a valid pair was pending, nothing was published yet or the interval had passed, and none otherwise; user, password, time, details and report are written out. Without faults it succeeds. |
| `RotationReconciler.Cluster.ReconcileSecret` | controllers/serviceuserrotation_controller.go:122-138 | Client, service and Secret are needed in this order; where one is missing the pass ends with its error and nothing has happened. A pass that succeeds has published exactly if it had to, and without faults it succeeds. |
| `RotationReconciler.Cluster.PersistStatus` | controllers/serviceuserrotation_controller.go:111-120 | The status is stored in whole seconds, and only if it changed. |
| `RotationReconciler.Cluster.Reconcile` | controllers/serviceuserrotation_controller.go:69-139 | The whole pass is a run of the protocol that publishes exactly if it has to; requeue time, Error condition and stored status follow from its result, and a status that cannot be saved fails the pass. |
| `RotationReconciler.RequeueAfter` | controllers/serviceuserrotation_controller.go:104-108 | The next pass comes at the jittered poll or at the deadline, whichever is first, and at once when the deadline has passed. |
| `RotationReconciler.NormalizedIsStable` | controllers/serviceuserrotation_controller.go:111-120 | A status is stored in whole seconds, loses less than a second, and compares equal when it is computed again. |
| `SchemaGraph.LayeredReachesNoCycle` | api/v1alpha1/kafkaschema_types.go:42 | A schema in a layer of the bottom-up order reaches no cycle. |
| `SchemaGraph.LayeredReachesNothingMissing` | controllers/reconciler.go:276-284 | Nor does it reach a schema that does not exist. |
| `SchemaGraph.DepthBoundsLayers` | api/v1alpha1/kafkaschema_types.go:42 | If no reference chain is longer than d, layer d holds every schema. |
| `SchemaGraph.AcyclicIsLayered` | api/v1alpha1/kafkaschema_types.go:42 | A finite acyclic graph is covered by as many layers as it has schemas. |
| `SchemaRegistry.PostIsFound` | controllers/kafkaschema_controller.go:252-270 | A posted content is found under the id that the post returned. |
| `SchemaRegistry.RevertIsIdempotent` | controllers/kafkaschema_controller.go:218-226 | Posting a content that the subject already has changes nothing and finds its old version, also after other contents. |
| `SchemaRegistry.PostKeepsValid` | controllers/kafkaschema_controller.go:252-261 | Posting keeps that an id belongs to one content and that a subject has each id once; every run relies on it. |
| `KafkaSchemas.ResolveMeaning` | controllers/kafkaschema_controller.go:404-438 | References resolve all or not at all: a pinned one as it is, a local one to the subject of its referent and the version that a read found, if there is one. |
| `KafkaSchemas.FingerprintTellsApart` | controllers/kafkaschema_controller.go:382-402 | Fingerprints are equal exactly if content, type, compatibility level and the set of references are. |
| `KafkaSchemas.LevelComesFirst` | controllers/kafkaschema_controller.go:228-231 | Nothing is posted before the subject has the level of the spec, and the level stays when the post is refused. |
| `KafkaSchemas.NextKeepsValid` | controllers/reconciler.go:298-344 | Whatever a pass reads and whichever call fails, an object with a recorded fingerprint has a version. |
| `KafkaSchemaPasses.VerdictWrittenOut` | controllers/kafkaschema_controller.go:134-190 | When a pass finds the schema recorded and when it creates or updates, in terms of the subject, the references as they resolve, the fingerprint and the generation. |
| `KafkaSchemaPasses.QuietPass` | controllers/kafkaschema_controller.go:134-190 | A pass that does neither changes nothing; one that finds the schema recorded marks it as running and processed, and records a level that is not on record yet. |
| `KafkaSchemaPasses.ApplyWrittenOut` | controllers/kafkaschema_controller.go:232-277 | References, level, post, lookup: how far an apply gets, and what registry, override and object are then; in the end the id in the status is that of the content, and the version holds it. |
| `KafkaSchemaPasses.ApplyingPass` | controllers/kafkaschema_controller.go:192-277 | A pass that applies takes the running mark away, and counts the generation as processed, with the fingerprint of what was posted, exactly if it gets to the end. |
| `KafkaSchemaPasses.OverridesAfter` | controllers/kafkaschema_controller.go:228-322 | A pass changes the compatibility override of its own subject only, and only as the ownership of the level says. |
| `KafkaSchemaOrder.NextKeepsInv` | controllers/kafkaschema_controller.go:232-277 | Every pass keeps that versions are earned by a registration and that registrations are in topological order. |
| `KafkaSchemaOrder.RegistrationIsTopological` | controllers/kafkaschema_controller.go:404-438 | In every run from an unregistered start, with old reads, lost answers and crashes, first registrations happen in a topological order of the references. |
| `KafkaSchemaOrder.CyclesAreNeverRegistered` | controllers/kafkaschema_controller.go:418-430 | A schema from which references lead to a cycle is never registered. |
| `KafkaSchemaOrder.DanglingIsNeverRegistered` | controllers/kafkaschema_controller.go:418-426 | Nor is one from which references lead to a schema that does not exist. |
| `KafkaSchemaOrder.UnregisteredSubjectUntouched` | controllers/kafkaschema_controller.go:252-261 | Until one of its schemas is registered, passes leave a subject of the registry as it was. |
| `KafkaSchemaTracking.NextTracksExactly` | controllers/reconciler.go:319-341 | Only a pass that registers a schema decides whether the version in its status holds what its fingerprint says: it does, unless the pass is torn and loses the record of other content. |
| `KafkaSchemaTracking.TracksExactlyIfHarmless` | controllers/reconciler.go:319-341 | After any run, a schema's version holds what its fingerprint says exactly if the last pass that registered it was harmless. |
| `KafkaSchemaTracking.RunTracks` | controllers/kafkaschema_controller.go:264-276 | A run without torn passes keeps all versions and fingerprints together, whatever is read and whichever call fails. |
| `KafkaSchemaFixedSpecs.PostIsPinned` | controllers/kafkaschema_controller.go:218-226 | Posting the one content of a schema gives it its version once and changes nothing after that. |
| `KafkaSchemaFixedSpecs.NextIsPinned` | controllers/kafkaschema_controller.go:232-277 | Every pass keeps that each schema has one version, of the one content that its pinned references allow. |
| `KafkaSchemaFixedSpecs.VersionsNeverMove` | controllers/kafkaschema_controller.go:216-231 | While specs do not change, no run ever gives a schema a second version. |
| `KafkaSchemaFixedSpecs.EveryRunTracks` | controllers/kafkaschema_controller.go:264-276 | In every run from an unregistered start, torn passes or not, versions hold what fingerprints say. |
| `KafkaSchemaFixedSpecs.NextKeepsReferentsFirst` | controllers/kafkaschema_controller.go:418-433 | Every pass keeps that a schema has a version only while everything that it references has one. |
| `KafkaSchemaFixedSpecs.WhatIsRegisteredIsCurrent` | controllers/kafkaschema_controller.go:216-277 | With fixed specs, in every state that a run from an unregistered start reaches, fixpoint or not, cycles or not: a schema has a version exactly if that version holds its spec with exactly what its references resolve to now. |
| `KafkaSchemaConvergence.OpenGatePass` | controllers/kafkaschema_controller.go:156-189 | With its referents ready, one pass records a schema as registered with what its references resolve to now, and the next one makes it ready without moving its version. |
| `KafkaSchemaConvergence.OpenGatePassIsCurrent` | controllers/kafkaschema_controller.go:252-276 | If it was not recorded like that before, or its version tracked its fingerprint, the registry then holds the current spec with the current references under its version. |
| `KafkaSchemaConvergence.PassKeepsLayer` | controllers/kafkaschema_controller.go:156-189 | No pass unsettles a layer that is settled. |
| `KafkaSchemaConvergence.TwoSweepsSettleALayer` | controllers/kafkaschema_controller.go:156-189 | Two full sweeps, in any orders, settle the layer above the settled ones. |
| `KafkaSchemaConvergence.EverySchemaGetsReady` | controllers/kafkaschema_controller.go:156-189 | From any state, twice as many full sweeps as the graph is deep make every schema ready, with the fingerprint of its current references; if versions held what fingerprints said before, every registered reference is then current. |
| `KafkaSchemaConvergence.AcyclicSchemasGetReady` | controllers/kafkaschema_controller.go:156-189 | On every finite acyclic graph without missing schemas, twice as many sweeps as there are schemas are enough. |
| `KafkaSchemaFixpoint.FixpointWithOpenGate` | controllers/reconciler.go:288-290 | Where the gate is open, a state that no pass changes is settled, and its references are current exactly if its version holds what its fingerprint says. |
| `KafkaSchemaFixpoint.CurrentExactlyIfHarmless` | controllers/reconciler.go:319-341 | After any run, torn passes or not, such a state has the current references exactly if the last pass that registered the schema was harmless. |
| `KafkaSchemaFixpoint.AcyclicFixpointExactly` | controllers/kafkaschema_controller.go:156-189 | On an acyclic graph without missing schemas this holds for every schema, and every schema is ready. |
| `KafkaSchemaFixpoint.FixpointIsCurrent` | controllers/kafkaschema_controller.go:156-189 | With versions that hold what fingerprints say, every registered reference of such a state is at its referent's current version. |
| `KafkaSchemaFixpoint.EveryFixpointOfARunIsCurrent` | controllers/kafkaschema_controller.go:156-189 | With fixed specs, this holds for every state that a run from an unregistered start reaches, torn passes or not. |
| `KafkaSchemaFixpoint.EveryRunConverges` | controllers/kafkaschema_controller.go:156-189 | And from whatever such a run leaves behind, full sweeps bring every schema and every reference up to date. |
| `KafkaSchemaStaleness.TornPassGoesUnnoticed` | controllers/reconciler.go:327-341 | A torn pass that resolved a reference from an old read leaves a settled state in which nothing changes any more and the reference is stale. |
| `KafkaSchemaStaleness.StaleFixpointIsReached` | controllers/reconciler.go:327-341 | From every start with two schemas and for every edit of the first, runs without faults and one torn pass lead there. |
| `KafkaSchemaStaleness.SuchAStart` | api/v1alpha1/kafkaschema_types.go:42-49 | There is such a start, with nothing registered. |
| `KafkaSchemaFixpoint.ShutGateChangesNothing` | controllers/reconciler.go:276-290 | While a referent is missing or not ready, a pass changes nothing, whatever is registered. |
| `KafkaSchemaStaleness.ShutGatesHideAStaleReference` | controllers/reconciler.go:276-290 | From every start with two schemas, for every edit of the first: runs without faults, and then an edit that makes the first schema wait for a missing one, lead to a state that no pass changes, in which versions hold what fingerprints say and the second schema is registered with a former version of the first. |
| `KafkaSchemaStaleness.SuchAnEdit` | api/v1alpha1/kafkaschema_types.go:42-49 | There is such a second edit, for every two schemas. |
| `KafkaSchemaController.LookupVersionForID` | controllers/kafkaschema_controller.go:341-379 | It finds the highest version that holds the id, and gives up when none does or when a version on the way down is not visible. |
| `KafkaSchemaController.Controller.ResolveReferences` | controllers/kafkaschema_controller.go:404-438 | The loop computes the resolved references of the specification. |
| `KafkaSchemaController.Controller.Observe` | controllers/kafkaschema_controller.go:134-190 | Verdict and object are those of the specification, including the backfilled level and the running mark. |
| `KafkaSchemaController.Controller.ApplyCompatibilityLevel` | controllers/kafkaschema_controller.go:280-322 | Registry and annotation end as the ownership protocol says, at every early exit. |
| `KafkaSchemaController.Controller.ApplySchema` | controllers/kafkaschema_controller.go:232-277 | Level, post and lookup change registry and object as the specification says, at every early exit. |
| `KafkaSchemaController.Controller.PersistReconcileState` | controllers/reconciler.go:319-343 | The status is written first and the annotations after it, both against the version that was read. |
| `KafkaSchemaController.Controller.Reconcile` | controllers/reconciler.go:117-176 | A pass on a schema is a step of the machine. |
| `CompatibilityOverride.WritesOnlyItsOwn` | controllers/kafkaschema_controller.go:287-317 | With the field cleared, the override changes only if it equals the recorded level, and becomes the global default. |
| `CompatibilityOverride.SetLevelIsRecorded` | controllers/kafkaschema_controller.go:281-287 | With the field set, an acknowledged write leaves the level in the registry and on record; a failed one records nothing. |
| `CompatibilityOverride.ApplyExactly` | controllers/kafkaschema_controller.go:280-322 | When the override is written and with which level, when the pass fails, and what is on record then. |
| `CompatibilityOverride.AtMostOneWrite` | controllers/kafkaschema_controller.go:287-321 | Any number of passes without outside writes, with old reads and failures, write at most once. |
| `CompatibilityOverride.ReplaysSettle` | controllers/kafkaschema_controller.go:287-321 | Once a pass has gone through, however often passes failed before or are replayed after it, an override that was the recorded one is the global default, any other one is as it was, and nothing is recorded any more. |
| `CompatibilityOverride.ForeignOverrideStays` | controllers/kafkaschema_controller.go:306-307 | An override that the operator did not record is never modified. |
| `AnnotationPatch.DiffReproducesCurrent` | controllers/reconciler.go:303-341 | Applied to the original annotations, the patch gives exactly the current ones. |
| `AnnotationPatch.DiffTouchesOnlyChanges` | controllers/reconciler.go:303-341 | Applied to any other annotations, it changes the keys that this pass changed and no others. |
| `AnnotationPatch.DiffIsLeast` | controllers/reconciler.go:307-325 | It is empty exactly when nothing changed, and no smaller patch does its work. |
| `AnnotationPatch.AnnotationChanges` | controllers/reconciler.go:303-319 | The two loops build that patch. |
| `Invalidation.NextKeepsInv` | controllers/reconciler.go:298-344 | Every step of every pass, every edit and every trigger keeps the invariant between stored object, copies held by passes, and times. |
| `Invalidation.ReadyWasAppliedAfterClearing` | controllers/reconciler.go:298-344 | In every run, the pass that marked a ready object applied its current generation, and started its Create or Update after the object was last invalidated, also when the clearing falls between the two writes of a pass. |
| `Numerals.DecimalIsInjective` | controllers/common.go:236-238 | The annotation tells generations apart. |
| `Invalidation.NextKeepsMarks` | controllers/common.go:231-238 | Every step keeps that the mark is of the generation that the marking pass had read, and never of a later one than the object has. |
| `Invalidation.EditTakesReadinessAway` | controllers/common.go:231-238 | In every reachable state, an edit that makes a new generation takes readiness away at once. |
| `Invalidation.FencedPassNeverWrites` | controllers/reconciler.go:331-341 | A pass that holds the object from before a clearing never changes it again, whatever happens in between. |
| `Invalidation.TriggerFences` | controllers/secret_watch_controller.go:193-211 | A trigger fences all passes under way if and only if it changes the object, or none of them holds the current one; and the mark survives it exactly if the copy from which it is made lacks the mark. |
| `Invalidation.ShownTriggersAreHonoured` | controllers/secret_watch_controller.go:193-221 | If every trigger changes the object into one without the mark, a ready object was applied after the last of them. |
| `Invalidation.HiddenTriggerIsLost` | controllers/secret_watch_controller.go:206-208 | From every state in which a trigger would not change an object that lacks the mark, there is a run that loses it. |
| `Invalidation.SecondTriggerOfASecondIsLost` | controllers/secret_watch_controller.go:206-208 | From every start, of two triggers within one second the second can be lost, although both are made from the current object. |
| `Invalidation.OldCopyLosesTheTrigger` | controllers/secret_watch_controller.go:196-211 | In every reachable state with a ready object, and for every second, there is a copy from which a trigger leaves the object ready. |
| `Invalidation.ReadyIsReached` | controllers/reconciler.go:117-176 | Such a state is reached from every start, by one pass without faults. |
| `WatchedReconciler.ApiServer.PersistReconcileState` | controllers/reconciler.go:298-344 | The write-back is a run of the machine; without faults it leaves exactly the object the pass made. |
| `WatchedReconciler.ApiServer.ObserveStep` | controllers/reconciler.go:148-165 | Create or Update starts exactly if the resource is missing or does not match, or the object is not marked as running and as processed in its own generation; a mark of any other generation does not count. |
| `WatchedReconciler.ApiServer.ApplyStep` | controllers/reconciler.go:157-163 | Only a Create or Update that succeeds, with its connection details published, marks the generation as processed; a failed one may still mark the object as running. |
| `WatchedReconciler.ApiServer.Reconcile` | controllers/reconciler.go:117-176 | A pass is a run of the machine. Nothing is applied before the preconditions are met; after them an apply starts exactly if it has to, in particular for every mark of another generation; only an apply that succeeded writes the mark; and the object that a pass leaves when its writes go through is written out. |
| `WatchedReconciler.ApiServer.TriggerReconciliation` | controllers/secret_watch_controller.go:193-224 | A call of the watch controller, made from any earlier version of the object, is a step of the machine if it reads a copy and its patch is applied, and no step otherwise; if it succeeds the current object has lost the mark, unless the copy came without it. |
| `SecretWatch.IndexValueIsInjective` | controllers/secret_watch_controller.go:132-140 | The joined index value tells Secrets of different namespaces and names apart. |
| `SecretWatch.Controller.FindResourcesUsingSecret` | controllers/secret_watch_controller.go:165-190 | It finds exactly the objects of the watched kinds that read the Secret, unless a listing fails. |
| `SecretWatch.Controller.Reconcile` | controllers/secret_watch_controller.go:68-105 | It triggers all of them and nothing else, or nothing if the Secret is gone or if reading it or a listing fails. |
| `SecretWatch.InvalidatedExactlyIfReached` | controllers/secret_watch_controller.go:94-104 | Afterwards an object lacks the mark exactly if it lacked it before, or it reads the Secret and its trigger got through and was made from a copy with the mark; a trigger that fails is not made up for. |
| `ManagedLifecycle.NoLeak` | controllers/reconciler.go:117-189 | In every run an existing remote resource is held by a finalizer or was left behind on purpose. |
| `ManagedLifecycle.DisappearsForAReason` | controllers/reconciler.go:526-579 | An object disappears only if the remote resource is absent, the policy is Orphan, deletion was deliberately skipped, or the token was invalid and the object not marked running. |
| `ManagedLifecycle.UnknownPolicyHolds` | controllers/reconciler.go:562-569 | With an unknown policy no number of passes deletes or releases. |
| `ManagedLifecycle.DeletionCompletes` | controllers/reconciler.go:526-579 | From every reachable state without a policy, deleting the object and one pass that works take object and remote resource away. |
| `ManagedLifecycle.LifeIsPossible` | controllers/reconciler.go:117-189 | A whole life, from nothing to nothing, for every policy at creation. |
| `ManagedLifecycle.LivePassExactly` | controllers/reconciler.go:128-176 | A live pass works at Aiven exactly if its preconditions are met, its finalizer is stored for certain, and there is a client. |
| `ManagedLifecycle.DeletionPassExactly` | controllers/reconciler.go:526-579 | A deletion pass asks Aiven exactly if there is no policy; the object goes exactly if the policy is Orphan, or Aiven deleted the resource, skipped it, or refused the token of one that never ran. |
| `ManagedLifecycle.Reconciler.ReconcileDeletion` | controllers/reconciler.go:526-579 | The deletion pass is a step of the machine; it comes back exactly while the deletion is in progress or stopped by dependencies or a server error, and ends exactly when the finalizer is gone for certain. |
| `ManagedLifecycle.Reconciler.HandleDeleteError` | controllers/reconciler.go:582-613 | The error is recorded, and dependencies and server errors requeue while the others fail. |
| `ManagedLifecycle.Reconciler.ReconcileLive` | controllers/reconciler.go:128-176 | Nothing happens at Aiven before the finalizer is stored; the pass waits exactly for references that are pending. |
| `SecretFinalizerGC.LastReferenceEnqueues` | controllers/secret_finalizer_gc_controller.go:84-123 | Whoever is the last to stop naming a Secret puts it in the queue. |
| `SecretFinalizerGC.EventEnqueues` | controllers/secret_finalizer_gc_controller.go:52-123 | Which Secrets each event, restart and step of a pass puts into the queue, and no others. |
| `SecretFinalizerGC.NextKeepsInv` | controllers/secret_finalizer_gc_controller.go:84-168 | Every event, restart and step of a pass keeps the invariant of the queue. |
| `SecretFinalizerGC.NeverStuck` | controllers/secret_finalizer_gc_controller.go:84-156 | In every reachable state a deleting, protected, unreferenced Secret is queued or being handled. |
| `SecretFinalizerGC.StuckNowhere` | controllers/secret_finalizer_gc_controller.go:125-156 | One undisturbed pass releases it. |
| `SecretFinalizerGC.ReleasedEarlyExactlyIfOvertaken` | controllers/secret_finalizer_gc_controller.go:140-153 | A pass takes the finalizer off a Secret that an enabled object names exactly if some object was made to name it after its kind was listed, and names it still. |
| `SecretFinalizerGC.ReleasedOnlyWhenUnneeded` | controllers/secret_finalizer_gc_controller.go:140-153 | Without such an object the finalizer goes only when no enabled object in the namespace names the Secret. |
| `SecretFinalizerGC.AnyObjectCanOvertake` | controllers/secret_finalizer_gc_controller.go:140-153 | In every reachable state in which all kinds are listed, any object of an enabled kind can come to name the Secret, which then loses its protection. |
| `SecretFinalizerGC.OvertakenPassReleasesTooEarly` | controllers/secret_finalizer_gc_controller.go:140-153 | For every object and every Secret in its namespace a run from nothing ends with a pass that removes the Secret although the object names it. |
| `SecretFinalizerGC.OnlyReleaseUnprotects` | controllers/secret_finalizer_gc_controller.go:150-153 | No other step takes the protection of any Secret, and this one takes it from the Secret of the pass alone. |
| `SecretGCController.Controller.SecretIsStillNeeded` | controllers/secret_finalizer_gc_controller.go:158-168 | The loop over the kinds answers whether any enabled object names the Secret, and is a run of the machine. |
| `SecretGCController.Controller.Reconcile` | controllers/secret_finalizer_gc_controller.go:125-156 | A pass is a run of the machine; it touches no other Secret, keeps a needed one, releases an unneeded one unless a call fails, and leaves a Secret that it cannot read in the queue. |
| `SharedServiceUsers.NextKeepsInv` | controllers/serviceuser_controller.go:191-247 | Every step of every deletion pass keeps that somebody answers for each user at Aiven. |
| `SharedServiceUsers.DeletionsSpareSharedUsers` | controllers/serviceuser_controller.go:198-218 | In no interleaving of passes and deletions does a user disappear at Aiven while one of its resources is not being deleted. |
| `SharedServiceUsers.NoUserTakenAway` | controllers/serviceuser_controller.go:198-224 | With creations as well, a user goes only through a deletion pass of one of its resources, and a resource that nobody has asked to delete is left without it exactly if one was created after the check. |
| `SharedServiceUsers.AnyResourceCanOvertake` | controllers/serviceuser_controller.go:202-219 | In every state with a pass that is about to delete the user, a resource of any new name can come to manage it, have its live pass, and lose it. |
| `SharedServiceUsers.OvertakenDeletionIsReached` | controllers/serviceuser_controller.go:202-219 | For every user and any two names, a run from nothing leads there. |
| `SharedServiceUsers.LastOneRemovesTheUser` | controllers/serviceuser_controller.go:191-247 | Once all resources of a user that is not built in are gone, the user is gone, except exactly if a pass left it to others none of which would ever delete it and no resource has answered for it since. |
| `SharedServiceUsers.ForsakenForUnprotectedDuplicates` | controllers/serviceuser_controller.go:204-218 | Only a pass that skips the user for duplicates without a finalizer does that. |
| `SharedServiceUsers.UnsharedDeletionCompletes` | controllers/serviceuser_controller.go:191-225 | Undisturbed, a resource that nobody shares takes its user along. |
| `SharedServiceUsers.UnprotectedDuplicatesLeak` | controllers/serviceuser_controller.go:228-247 | Whenever all duplicates lack their finalizer, deletions alone lead to a user that is left over. |
| `SharedServiceUsers.LeakIsReached` | controllers/serviceuser_controller.go:204-218 | For every user and any two resources, a run from nothing leads there. |
| `ServiceUserController.FindDuplicate` | controllers/serviceuser_controller.go:228-247 | It returns another undeleted resource for the same user exactly if there is one. |
| `ServiceUserController.Controller.Delete` | controllers/serviceuser_controller.go:191-225 | Its outcome and the users left at Aiven, for built-in, shared and unshared users, failing listings and failing calls; and it is a run of the machine. |
| `ServiceUserController.Controller.ReconcileDeletion` | controllers/reconciler.go:544-579 | The object goes exactly if its user is built in, shared or gone and the finalizer can be removed; only an unshared user that is not built in is deleted. |
| `GrantStatements.QuotedRoundTrip` | api/v1alpha1/clickhousegrant_types.go:262-266 | Reading an escaped identifier gives it back, whatever characters it holds. |
| `GrantStatements.PrivilegesRoundTrip` | api/v1alpha1/clickhousegrant_types.go:184-195 | Reading the privileges part gives back each privilege, SELECT and INSERT with the columns and all others without. |
| `GrantStatements.ObjectRoundTrip` | api/v1alpha1/clickhousegrant_types.go:235-242 | Reading the object part gives back database and table, and no table for the whole database. |
| `GrantStatements.RoundTrip` | api/v1alpha1/clickhousegrant_types.go:208-232 | Reading a built statement gives back kind, each privilege with the columns if it is SELECT or INSERT, or the roles, object, each grantee as user or role, and the option of a GRANT, for privileges that are plain keywords. |
| `GrantRights.RightsAreNamed` | api/v1alpha1/clickhousegrant_types.go:184-242 | The rights of an entry, tuple by tuple: SELECT and INSERT are for the columns, one right each and none for the table, if there are any; all else is for the table, or for the database without one. |
| `GrantRights.RightsMeaning` | api/v1alpha1/clickhousegrant_types.go:70-79 | A list of entries amounts to what one of them names, and may be passed on if one of them says so. |
| `GrantRights.RevokeDenotesGrant` | api/v1alpha1/clickhousegrant_types.go:173-232 | REVOKE names exactly the tuples that GRANT of the same entry names, read back from the written statements. |
| `GrantRights.RevokesWork` | controllers/clickhousegrant_controller.go:138-153 | Executing the written revokes removes exactly the rights of those that were not refused. |
| `GrantRights.GrantsWork` | controllers/clickhousegrant_controller.go:156-160 | Executing the written grants adds exactly the rights of those that were not refused, with their options. |
| `GrantRights.OnlyTheLastSpecRemains` | controllers/clickhousegrant_controller.go:72-91 | Over any run of successful applies nothing of an earlier spec survives: what was there in the beginning without everything earlier specs named, and the last spec on top. |
| `GrantRights.HeldAfterApplies` | controllers/clickhousegrant_controller.go:72-91 | Right by right: after any run of applies a right is held if and only if the last spec names it, or it was held in the beginning and nothing applied before the last spec names it; likewise for its grant option. |
| `GrantRights.UnmanagedRightsStay` | controllers/clickhousegrant_controller.go:72-91 | The rights held are the unmanaged ones and the last spec's exactly if no earlier spec named an unmanaged right that the last one does not; and with the same grant options exactly if the last spec gives the option for each such right that had it. |
| `GrantRights.AttemptMeaning` | controllers/clickhousegrant_controller.go:72-91 | Right by right, what an attempt that fails half-way leaves. |
| `GrantRights.OneMoreAttempt` | controllers/clickhousegrant_controller.go:72-91 | Attempts follow each other; the record of what to revoke stays. |
| `GrantRights.RetryConverges` | controllers/clickhousegrant_controller.go:72-91 | However many attempts for a spec failed, wherever each got to, a complete apply of it ends as if they had not been. |
| `GrantRights.ToleratedMeaning` | controllers/clickhousegrant_controller.go:138-160 | Right by right: an apply that went on after tolerated refusals leaves what the spec names, and what was held and is named by no revoke that was accepted. |
| `GrantRights.RefusalsMatter` | controllers/clickhousegrant_controller.go:144-150 | The exact condition under which tolerated refusals do not change the outcome. |
| `GrantRights.RefusedRevokeKeepsOthersRights` | controllers/clickhousegrant_controller.go:144-150 | A grantee that is gone makes the others keep their rights. |
| `ClickhouseGrantController.EscapeIdentifier` | api/v1alpha1/clickhousegrant_types.go:262-266 | One pass over the identifier computes the escaped form. |
| `ClickhouseGrantController.ConstructPrivilegesPart` | api/v1alpha1/clickhousegrant_types.go:184-195 | The loop computes a privileges part that reads as SELECT and INSERT with the columns and all other privileges without. |
| `ClickhouseGrantController.BuildAllStatements` | api/v1alpha1/clickhousegrant_types.go:70-79 | One statement for each entry, privileges before roles. |
| `ClickhouseGrantController.CollectGrantees` | api/v1alpha1/clickhousegrant_types.go:109-124 | Every user or role that is granted something, once. |
| `ClickhouseGrantController.CollectDatabases` | api/v1alpha1/clickhousegrant_types.go:126-134 | Every database named by a privilege grant, once. |
| `ClickhouseGrantController.NoErrorsExactly` | controllers/clickhousegrant_controller.go:122-136 | There is no error exactly if every statement was readable and accepted. |
| `ClickhouseGrantController.ErrorsMeaning` | controllers/clickhousegrant_controller.go:122-136 | The errors are the statuses of the statements that were refused, unreadable, or whose answer was lost. |
| `ClickhouseGrantController.Controller.ExecuteStatements` | controllers/clickhousegrant_controller.go:122-136 | All statements run whatever happens to earlier ones, and every error is returned in order. |
| `ClickhouseGrantController.Controller.RevokeGrants` | controllers/clickhousegrant_controller.go:138-153 | It fails exactly if a statement fails with another status than 400 and 404. |
| `ClickhouseGrantController.Controller.ApplyGrants` | controllers/clickhousegrant_controller.go:72-91 | It succeeds exactly if revokes fail with 400 and 404 only and all grants are accepted. A failed apply keeps the record of what to revoke; a successful one records the spec, and the rights are those of the specification. |
| `ClickhouseGrantController.Controller.Observe` | controllers/clickhousegrant_controller.go:40-56 | On an operational service, up to date exactly if the generation was applied, and otherwise an apply starts exactly if both queries work and find every grantee and every database of the spec. |
| `Slices.UniqueMeaning` | utils/utils.go:20-30 | Nothing is lost or repeated, first occurrences keep their order, and a list without repetitions stays as it is. |
| `Slices.UniqueSliceElements` | utils/utils.go:20-30 | The loop with its seen map computes that list. |
| `Slices.CheckSliceContainment` | utils/utils.go:32-52 | It returns the needles that are missing; none exactly if all are there. |
| `Slices.MapSlice` | utils/utils.go:11-17 | Every element is mapped, in place. |
| `LegacyService.ReadyMeansPublished` | controllers/basic_controller.go:192-256 | Every pass whose first write is applied, or that has nothing to write, leaves a service ready, not powered off and wanting a Secret only with a connection Secret that its current UID controls, whatever was there before. |
| `LegacyService.FailedWriteBack` | controllers/basic_controller.go:221-255 | After a refused first write, what is stored is ready without its own Secret exactly if it was so before, nobody has touched it, and the pass did not get as far as writing the Secret; the next pass then begins by taking the mark away. |
| `LegacyService.FaultFreePassPublishes` | controllers/basic_controller.go:192-256 | From whatever state, one pass that meets no failure leaves a running service ready, with a Secret of its own, unless another object controls the Secret. |
| `LegacyService.RecreationTakesOver` | controllers/generic_service_handler.go:316-345 | In particular, a service recreated under the same name takes over the Secret of its predecessor. |
| `LegacyService.ObservePublishes` | controllers/generic_service_handler.go:220-313 | Observing marks a service running only with its own Secret and never loses that Secret. |
| `LegacyService.NoSecretOffered` | controllers/generic_service_handler.go:272-278 | A kind that offers no Secret while its object wants one would be ready without it. |
| `LegacyService.EditSurvivesExactlyIfNothingIsWritten` | controllers/basic_controller.go:216-252 | An edit of the spec made during a pass survives exactly if the pass has nothing to write or its first write is refused; otherwise the old spec is put back, as a new generation. |
| `LegacyPasses.SkipsExactly` | controllers/basic_controller.go:205-216 | A pass is over at once exactly if the object is ready, can be trusted to have its Secret unless it is powered off or wants none, and no migration is in progress. |
| `LegacyPasses.PublishLeaves` | controllers/generic_service_handler.go:270-345 | Which Secret a running service ends up with, with which details, and what the object says about it. |
| `LegacyPasses.ObserveLeaves` | controllers/generic_service_handler.go:220-313 | Marks, condition, error, migration and Secret after an observation, field by field. |
| `LegacyPasses.PassLeaves` | controllers/basic_controller.go:258-345 | The finalizer comes first, then the gates, then a generation that still has to be applied loses both marks and gets the first one back by being applied. |
| `LegacyPasses.MarksAreEarned` | controllers/basic_controller.go:258-345 | A generation counts as processed only once it was applied with all preconditions met, the running mark says in which state the service was found, and a pass always adds the finalizer. |
| `LegacyPasses.MigrationFollowsAnswers` | controllers/generic_service_handler.go:347-393 | A migration becomes done or failed only by an answer that says so, and what is done stays done. |
| `LegacyPasses.StoredExactly` | controllers/basic_controller.go:221-255 | With nobody else at work the result of a pass is stored as it is; a status that is not stored stays behind. |
| `LegacyPasses.PassFinalizes` | controllers/basic_controller.go:274-279 | A pass that goes on, and whose first write is applied to the object it read, leaves it with a finalizer. |
| `LegacyPasses.MarkedObjectsAreGuarded` | controllers/basic_controller.go:192-279 | In every run of passes, with any answers, edits, replacements and failing writes, an object that is marked as processed or running has its finalizer. |
| `LegacyPasses.EveryRunPublishes` | controllers/basic_controller.go:192-256 | After every pass of such a run whose first write is applied, a service that is ready and wants a Secret has one of its own. |
| `LegacyReconciler.Cluster.NeedsPublish` | controllers/basic_controller.go:582-608 | It answers true exactly if the last publish failed or the Secret cannot be verified as the object's own. |
| `LegacyReconciler.Cluster.PublishConnectionSecret` | controllers/generic_service_handler.go:316-345 | The Secret is created or taken over with exactly the given details, unless another object controls it. |
| `LegacyReconciler.Cluster.UpdateMigration` | controllers/generic_service_handler.go:347-393 | The migration condition follows the answer; no active migration counts as done. |
| `LegacyReconciler.Cluster.ObserveService` | controllers/generic_service_handler.go:220-313 | Object and Secret end as the specification says, at every early exit. |
| `LegacyReconciler.Cluster.CreateOrUpdateInstance` | controllers/basic_controller.go:506-572 | Both marks go first, and the generation counts as processed only on success. |
| `LegacyReconciler.Cluster.WriteBack` | controllers/basic_controller.go:227-252 | Spec and metadata are written first and the status after them, each with its own outcome, and never over another object. |
| `LegacyReconciler.Cluster.Reconcile` | controllers/basic_controller.go:192-256 | A pass on an object that is not being deleted ends as the specification says; with its first write it stores the finalizer, which stays with the marks, and readiness that can be trusted. |
| `OpenSearchAcl.Pigeonhole` | controllers/opensearchaclconfig_controller.go:141-151 | Equal lengths, reported users unique and all desired: then the users are the same and none is desired twice. |
| `OpenSearchAcl.ElementsMatch` | controllers/opensearchaclconfig_controller.go:167-169 | Two lists of rules match exactly if they are equal as multisets. |
| `OpenSearchAcl.OpenSearchACLsMatch` | controllers/opensearchaclconfig_controller.go:141-175 | True exactly when both sides have the same users, each once, with equal multisets of rules. |
| `OpenSearchAcl.BuildAcls` | controllers/opensearchaclconfig_controller.go:120-139 | What is sent is what is desired. |
| `OpenSearchAcl.ReadBackIsUpToDate` | controllers/opensearchaclconfig_controller.go:80-97 | Reading back any permutation of what was sent is up to date, exactly if the desired users are unique. |
| `OpenSearchAcl.UpdateThenObserve` | controllers/opensearchaclconfig_controller.go:80-97 | An update followed by an observation, with lists and rules reordered in between, is up to date exactly if the desired users are unique. |
| `TechEmails.AsciiLowerIsCaseMapping` | controllers/organizationproject_controller.go:211-218 | Lower case of ASCII letters meets what is required of a case mapping, so there is one. |
| `TechEmails.LessMeaning` | controllers/organizationproject_controller.go:226 | The order of the characters decides where two addresses first differ, and a prefix comes first. |
| `TechEmails.LowerDomainOfParts` | controllers/organizationproject_controller.go:215-219 | Of an address, everything up to its last @ stays as it is, and the rest is mapped position by position. |
| `TechEmails.LowerDomainWithoutAt` | controllers/organizationproject_controller.go:215-219 | Without an @ it stays as it is. |
| `TechEmails.NormalizeMeaning` | controllers/organizationproject_controller.go:211-228 | The result is strictly ascending and holds exactly the addresses with every character of their domains in lower case and all others as they were. |
| `TechEmails.NormalizeTwice` | controllers/organizationproject_controller.go:211-228 | Normalizing twice changes nothing. |
| `TechEmails.NormalFormIsCanonical` | controllers/organizationproject_controller.go:184-190 | Two lists normalize equally exactly when they spell the same addresses, up to the case of the domains. |
| `TechEmails.SameAddressExactly` | controllers/organizationproject_controller.go:211-228 | Two addresses have the same normal form exactly if their local parts are equal and their domains are equal position by position up to case. |
| `TechEmails.NormalizeTechEmails` | controllers/organizationproject_controller.go:212-228 | The loop with its seen map and the sort give every address with its domain in lower case, each once and in order. |

## Left out

- Clients, retries inside the clients, logging, events and index registration: calls are the outcomes that the code tells apart.
- JSON, SHA-256, random passwords and URL parsing: a fingerprint is the record it is computed from, with the references as the set that sorting
  by unique names canonicalizes, and a password is an opaque string.
- Late effects: a call that reports a failure was applied at once or not at all, never later.
- Interleaved passes over the same kind of schema, service or grant: their controllers have one worker, so passes are atomic there;
  interleaving is modelled for the rotation, the managed annotations, the Secret queue and the shared users.
- WatchedReconciler.ApiServer.Reconcile: writing the finalizers before Observe is not part of a pass here; the object's own finalizer is
  the subject of ManagedLifecycle.
- Status conditions are kept as far as a branch depends on them; their texts and times are left out.
- Deletion of a KafkaSchema (controllers/kafkaschema_controller.go:440-478) and the events that requeue dependents: passes may run at any time, so no
  property here depends on when they do.
- KafkaSchemaConvergence.EverySchemaGetsReady: the registry accepts every content; rejected contents and compatibility checks are not
  modelled.
- ManagedLifecycle.NoLeak: takes the contract of Delete at controllers/client.go:34-37 as given; kinds whose Delete trusts an empty status id after a
  lost status write do not keep it.
- LegacyReconciler.Cluster.Reconcile: without the deletion path and its policies (controllers/basic_controller.go:422-496), and without the
  errors that the write-back returns, since an inner read replaces the error of the pass.
- Publishing in the managed reconciler: whether the connection Secret can be written is an input of a pass.
- GrantStatements.RoundTrip: privileges that hold a backquote, a comma or a parenthesis, and empty lists, are not plain and have no unique reading.
- Grant batches that failed in part and are followed by a different spec: the code records only specs that were applied completely.
- The comparison of access control lists and authentication of service users, and the other fields of organization projects: plain comparisons.
- TechEmails.NormalizeTechEmails: lower case is a mapping of single characters, without the mappings that depend on the context.
- Webhooks, CRD types, generated code, the sweeper, documentation and chart generators, and the adapters of single services.
