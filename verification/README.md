# Verified model of the image registry operator

The operator keeps Kubernetes objects in agreement by writes that span several objects, under optimistic concurrency and
with a crash possible between any two of them. This project models its protocols as state machines over a versioned store,
with the same branches, guards and constants as the Go code, and proves what holds in every state of every history.

## How it is organised

| files | subject |
|---|---|
| `Wrappers.dfy`, `Cluster.dfy`, `Text.dfy` | options, clock and faults of writes, splitting at a separator, decimal numbers |
| `Naming.dfy`, `OperatorConfig.dfy` | label values, account, Secret and host names, and why they never collide |
| `Base64.dfy`, `RegistriesConf.dfy`, `SecretMerge.dfy` | credentials in docker and makisu configuration and the merge of input Secrets |
| `Accounts.dfy`, `ImageSecret.dfy` | the ImagePullSecret/ImagePushSecret reconciler: store, writes, one run, and the imperative reconciler |
| `RotationProtocol.dfy`, `RotationSafety.dfy`, `RotationReady.dfy`, `RotationSync.dfy`, `RotationOutcome.dfy` | any number of interleaved runs of it; invariant, safety over histories, what a stored Ready means, what one run achieves, and what it stores and asks for in each case |
| `Auth.dfy`, `AuthProtocol.dfy` | the authenticator's copy-on-write cache and the expiry controller; concurrent logins on a clock |
| `Continuity.dfy` | rotation, expiry and authentication together on one clock |
| `OwnerRefs.dfy`, `BackRefs.dfy`, `BackRefsProtocol.dfy`, `ImageBuildEnv.dfy` | owner reference lists, the update of back references, the worker step by step among outsiders, the reconciler |
| `Certs.dfy`, `CertRenewal.dfy`, `CertHierarchy.dfy`, `CertSchedule.dfy`, `CertManager.dfy` | key pairs and renewal, runs of renewals, root CA and server certificate over time, both on the root CA's own schedule, the imperative certificate manager |
| `Registry.dfy`, `Readiness.dfy` | the ImageRegistry reconciler and its handshake with the StatefulSet controller |

Conventions:

- The API server is a map of objects with versions from one counter. Creating an existing object and updating with an old
  version fail. Every write has a fault: `Reliable`, `DroppedRequest` (no effect, the caller sees an error) or
  `DroppedResponse` (takes effect, the caller sees an error). A crash may follow any step.
- A stale read returns any content whose version is not the stored one, or, where that matters, what was stored at some
  earlier time. It returns the stored content if the version agrees.
- Operations exist twice: as a function of the store, on which the lemmas are proved, and as methods of classes that update
  fields, arrays and maps as the Go code does and are proved equal to the function. The state machines use the functions'
  steps, and undisturbed calls are proved to be histories of the machines (`RunIsHistory`, `UpdateIsHistory`,
  `LoginIsPath`, `ExpiryIsStep`).
- bcrypt is a symbolic hash that matches the hashed password only. An X.509 certificate is a record whose `publicKey` and
  `signedBy` name keys. A PEM block is a value. Encoded validity and the timestamps of accounts are cut to
  whole seconds. Times are nanoseconds.
- Clocks, passwords, salts, keys, read results and faults are parameters.

## Findings

Where the code does not do what one would expect, the condition under which it does is proved, or a witness is given.

- A resource with a dot in its name is not found again from its accounts' label (`Naming.MapInvertsToMapValue`,
  `Naming.DottedNameIsMisrouted`).
- Credentials survive the docker configuration exactly if the user has no colon (`RegistriesConf.CredentialRoundTrip`).
- If the password cannot be hashed or the rotation's claim request is lost, and the failure message equals the condition
  already stored for this generation, then the run returns no error, does not requeue and writes nothing, so nothing retries
  it (`RotationSync.ForgottenFailure`).
- Ready can be stored for a Secret that an outsider has deleted, or stripped of its annotation, since the run read or wrote it.
  Other edits do no harm: the stored Secret agrees if and only if it still bears the stored rotation
  (`RotationReady.ReadyAgreesIff`, `RotationReady.OutsiderBreaksReady`).
- The stored Secret's password is rejected while the authenticator's cache holds an entry for its account name from an
  account of that name that existed before. Such an entry blocks logins until 10 minutes after the new account's creation
  at most (`Continuity.SecretAcceptedIff`, `Continuity.BlocksEnd`, `Continuity.CachedNameBlocks`).
- The revocation bound of timestamp + time to live + 10 s + lateness + 10 min fails for exactly those times to live that lie
  more than 10 s below what rounding may take off the timestamp, 1 s less 1 ns: such an account can be loaded before the
  controller first sees it (`AuthProtocol.PlainBoundFailsIff`). Up to that rounding it holds for all from -10 s on
  (`AuthProtocol.RevocationBound`).
- A resource's own output Secret that is requested as an input gets no back reference, since it lists the resource's UID as
  its controller (`BackRefs.AddedBears`). When it is no longer requested it loses its controller
  (`BackRefs.ControlledAfterUpdateIff`, `BackRefs.UnlistedOutputLosesController`), and a Secret of the output's name that
  existed before without a controller never gets one (`ImageBuildEnv.OutputControlledIff`).
- `UpdateReferences` does not persist a list that differs from the stored one only in order or repetition
  (`BackRefs.StoredOrder`, `BackRefs.OrderIsNotStored`). A Secret requested twice makes the call fail once, unless the
  Secret bears the owner already (`BackRefs.FaultFreeCallSucceeds`).
- Deleting a back reference depends on a read that shows it. A cached read from before it was added leaves it behind, also
  beyond the life of the owner (`BackRefsProtocol.DeletionDependsOnRead`, `BackRefsProtocol.HiddenReferenceOutlivesOwner`).
- With an outdated copy of the owner whose list has the requested Secrets the status write is skipped. The outcome is safe if
  and only if each of them had the owner already or is listed by the stored owner; with any other list the status write is
  refused (`BackRefsProtocol.OutdatedOwnerSafeIff`, `BackRefsProtocol.OutdatedOwnerIsUnsafe`).
- An unmanaged root Secret is accepted whenever it parses and is not due, even if it is not a CA
  (`Certs.UnmanagedRootIsAccepted`) or its key does not belong to its certificate (`CertHierarchy.SignerShownIff`).
- A failed reference update, merge or output of an ImageBuildEnv is reported but not returned as an error, and if the same
  report is stored already the run ends as done without any write (`ImageBuildEnv.ReportedOrFailed`, `ImageBuildEnv.RepeatedFailureIsDone`).
- Accounts are labelled `name.namespace` but selected for deletion by `namespace/name`, which no label ever equals
  (`Naming.SelectorMissesLabel`).
- The server certificate's names repeat one if the DNS zone is `svc` (`CertManager.DnsNamesOfRegistry`).
- A new operator version that renders another StatefulSet from the same registry spec reports ready while it replaces the
  StatefulSet (`Readiness.ChangedRenderingIsReadyEarly`).
- The repository's README says that Secrets are rotated every 24 hours. The code rotates at half the account's time to live,
  which is 12 hours by default. The model follows the code.

## Model

| member | source | states |
|---|---|---|
| Naming.MapAccepts | pkg/backrefs/keytorequest.go:32-46 | a value is mapped exactly if there is text on both sides of its first dot, and `ToMapValue` of the request is the value again |
| Naming.MapInvertsToMapValue | pkg/backrefs/keytorequest.go:13-46 | mapping a written label value gives the resource back if and only if namespace and name are not empty and the name has no dot |
| Naming.DottedNameIsMisrouted | pkg/backrefs/keytorequest.go:13-46 | a concrete resource with a dotted name is mapped to another one |
| Naming.AccountNameSplits | pkg/controller/imagesecret/secretreconciler.go:349-351 | mode and dot-free namespace can be read off an account name |
| Naming.AccountNameInjective | pkg/controller/imagesecret/secretreconciler.go:349-351 | equal account names imply equal mode, namespace, name and rotation, for dot-free namespaces and any names |
| Naming.RotationsDistinct | pkg/controller/imagesecret/secretreconciler.go:349-351 | one resource's account names differ for different rotations, whatever its namespace holds |
| Naming.SecretNameInjective | pkg/controller/imagesecret/secretreconciler.go:353-355 | two resources of a namespace never share a Secret name |
| Naming.HostnameDeterminesRegistry | pkg/controller/imageregistry/imageregistry_reconcile.go:38-40 | within a zone a hostname determines the registry's name and dot-free namespace |
| Naming.NamesSpelledOut | pkg/controller/imagesecret/secretreconciler.go:349-355 | account and Secret names on written-out text: mode, namespace, name and rotation with dots between them |
| Naming.SelectorMissesLabel | pkg/controller/imagesecret/secretreconciler.go:260-265 | the value by which accounts are selected for deletion is never the one with which any account is labelled |
| OperatorConfig.ConfigIsValid | pkg/controller/imagesecret/secretreconciler.go:98-120 | the operator's real names, hosts and interval meet all that the rotation protocol assumes |
| OperatorConfig.ResourcesNeverCollide | pkg/controller/imagesecret/secretreconciler.go:349-351 | for one resource every account of another one is a foreign account |
| OperatorConfig.ConfigSpelledOut | pkg/controller/imagesecret/secretreconciler.go:302-328 | labels, access mode, back-pointing label, Secret type and hostname that the operator configures, written out |
| OperatorConfig.SecretGrantsItsResource | pkg/controller/imagesecret/secretreconciler.go:302-346 | end to end for the real configuration from a clean start: at every instant at which the Secret bears an annotation a login with it is granted exactly namespace, name, access mode (`pull` or `push`), origin and account name of its resource |
| Base64.DecodeEncode | pkg/registriesconf/makisuconf.go:37-49 | every byte string is decoded from its encoding |
| Base64.EncodeDecode | pkg/registriesconf/makisuconf.go:37-49 | a decodable text without its line breaks is the encoding of its bytes if and only if its padding bits are zero |
| Base64.TestVectors | pkg/registriesconf/makisuconf.go:37-49 | the test vectors of section 10 of RFC 4648 |
| RegistriesConf.CredentialRoundTrip | pkg/registriesconf/dockerconf.go:25-34 | `ToMakisuBasicAuth` returns user and password of the auth string if and only if the user has no colon |
| RegistriesConf.CredentialWithColon | pkg/registriesconf/makisuconf.go:37-49 | with a colon in the user, the split is at the first colon and the rest goes to the password |
| RegistriesConf.AuthWithoutColon | pkg/registriesconf/makisuconf.go:37-49 | an auth text is accepted if and only if it is base64, and one without a colon is all user |
| RegistriesConf.AuthDecodes | pkg/registriesconf/dockerconf.go:25-34 | the auth text decodes to user, colon and password |
| RegistriesConf.DockerConfig.AddAuth | pkg/registriesconf/dockerconf.go:25-34 | exactly the registry's entry is set, also when no map existed |
| RegistriesConf.MakisuRegistries.AddRegistry | pkg/registriesconf/makisuconf.go:51-58 | exactly the entry for registry and pattern is set, also when no inner map existed |
| SecretMerge.MergeSecretData | pkg/controller/imagebuildenv/imagebuildenv_controller.go:239-273 | succeeds if and only if every input Secret configures registries by its type and data and all its auths can be decoded, and then returns the specified merge, for every iteration order; else it returns an error of the first Secret that is refused |
| SecretMerge.ConfigIsRead | pkg/controller/imagebuildenv/imagebuildenv_controller.go:275-298 | on type and data: a dockerconfigjson Secret is read under `.dockerconfigjson` and an Opaque one under `config.json`; no data, another type, an absent or empty key and other content each have their error, as an if-and-only-if |
| SecretMerge.UsableIsMergeable | pkg/controller/imagebuildenv/imagebuildenv_controller.go:246-262 | a Secret can be merged if and only if what it holds under the key for its type lists registries whose auths can all be decoded |
| SecretMerge.MergeAuths | pkg/controller/imagebuildenv/imagebuildenv_controller.go:250-261 | one Secret's entries override the ones collected so far in both configurations, or some entry cannot be decoded |
| SecretMerge.LastSecretWins | pkg/controller/imagebuildenv/imagebuildenv_controller.go:246-262 | the merged registries are those that the inputs list under the keys for their types, and each has the auth of the last Secret that lists it |
| SecretMerge.MergedDataContents | pkg/controller/imagebuildenv/imagebuildenv_controller.go:264-272 | makisu and docker configuration have the same registries, the former under the pattern `.*` with credentials of the winning auth, and all other keys are those of the first Secret |
| SecretMerge.WinningCredentials | pkg/controller/imagebuildenv/imagebuildenv_controller.go:246-272 | user and password that the last Secret holds under the key for its type, as `AddAuth` writes them, are the ones makisu reads |
| ImageSecret.Reconciler.SetSyncStatus | pkg/controller/imagesecret/secretreconciler.go:243-258 | writes the status, with the counter held in memory, exactly if condition or generation changed |
| ImageSecret.Reconciler.RotatePassword | pkg/controller/imagesecret/secretreconciler.go:279-347 | claim, account and Secret are written in this order, stopping at the first failure, and the counter in memory stays incremented after a failed claim |
| ImageSecret.Reconciler.CreateCredentials | pkg/controller/imagesecret/secretreconciler.go:302-346 | the account is created under the claimed rotation's name with its time to live, labels and back-pointing label, then the Secret with its name, password, registry, CA, docker config and type |
| ImageSecret.Reconciler.Run | pkg/controller/imagesecret/secretreconciler.go:145-241 | a whole run: finalizer, lookups, rotation if needed, report and requeue delay are those of the specification function |
| RotationOutcome.MissingRegistry | pkg/controller/imagesecret/secretreconciler.go:194-200 | without a registry the run stores Ready false with reason RegistryUnavailable for the current generation, changes no account, Secret or rotation, and asks to come back in 30 s |
| RotationOutcome.ReportedOrFailed | pkg/controller/imagesecret/secretreconciler.go:194-258 | whatever a run reads and loses: it ends with an error or has stored the condition of what it met for the current generation, with the delay that belongs to it |
| RotationOutcome.FailsForAReason | pkg/controller/imagesecret/secretreconciler.go:194-258 | it ends with an error only after a failed lookup, a lost report, or a claim that took effect unnoticed |
| RotationOutcome.FailedLookup | pkg/controller/imagesecret/secretreconciler.go:202-218 | a failed lookup of account or Secret ends the run before it writes anything |
| RotationOutcome.LostReport | pkg/controller/imagesecret/secretreconciler.go:243-258 | a lost report is an error unless it would say what is stored already |
| RotationOutcome.LostFinalizer | pkg/controller/imagesecret/secretreconciler.go:163-192 | a lost finalizer write is an error, and a live resource is then reported as not synced |
| RotationOutcome.FailedCleanup | pkg/controller/imagesecret/secretreconciler.go:163-180 | while the accounts cannot be deleted the finalizer stays and the run ends with an error |
| RotationOutcome.OldAccountsDropped | pkg/controller/imagesecret/secretreconciler.go:286-291 | exactly which accounts a due run deletes: selected ones in the stored registry namespace, if the resource leaves it |
| RotationOutcome.OthersSecretIsLeft | pkg/controller/imagesecret/secretreconciler.go:336-338 | a Secret that another object controls is not changed, and the rotation is reported as failed |
| RotationOutcome.RotationWrites | pkg/controller/imagesecret/secretreconciler.go:293-346 | all fields of claim, account and Secret after a rotation whose writes get through: hash, labels, back-pointing label and time to live of the account, and name, password, registry, CA, docker config, type and annotation of the Secret |
| RotationProtocol.StepKeepsInv | pkg/controller/imagesecret/secretreconciler.go:145-347 | no step of any run and no outsider breaks the invariant that ties claims, accounts, Secret and runs together |
| RotationSync.RunIsHistory | pkg/controller/imagesecret/secretreconciler.go:145-241 | every run, whatever stale reads, lost writes and crashes it meets, is a history of the protocol |
| RotationSafety.ReachableInv | pkg/controller/imagesecret/secretreconciler.go:145-347 | the invariant holds in every state of every history of interleaved runs |
| RotationSafety.RotationNeverDecreases | pkg/controller/imagesecret/secretreconciler.go:293-301 | the stored rotation never decreases |
| RotationSafety.ClaimedOnce | pkg/controller/imagesecret/secretreconciler.go:293-301 | two different status writes never claim the same rotation |
| RotationSafety.CreatedOnce | pkg/controller/imagesecret/secretreconciler.go:303-320 | the account of one rotation is created at most once over a whole history |
| RotationSafety.AccountStep | pkg/controller/imagesecret/secretreconciler.go:315-320 | no step changes an account that it leaves in place, and what is recorded as created stays recorded |
| RotationSafety.CreatedAccounts | pkg/controller/imagesecret/secretreconciler.go:296-320 | created accounts have an index of at most the stored rotation, and the current one lives in the stored registry namespace |
| RotationSafety.SecretAgreesWithAccount | pkg/controller/imagesecret/secretreconciler.go:322-346 | a Secret annotated k names the account created for k, its password matches that account while it exists, its docker config has the same credentials, and the account has the labels, the back-pointing label and the time to live of the configuration |
| RotationSafety.AnnotationsIncrease | pkg/controller/imagesecret/secretreconciler.go:329-345 | the annotations written to one Secret object are strictly increasing even when runs race |
| RotationReady.ReadyAgreesIff | pkg/controller/imagesecret/secretreconciler.go:220-258 | whichever of any number of interleaved runs stores Ready, with stale reads, lost writes, crashes and outsiders: annotation, name, password, hostname, CA and docker config of the stored Secret agree with stored rotation and registry if and only if the Secret still bears the stored rotation, and then all is in sync if and only if the account still exists |
| RotationReady.ReadyAgrees | pkg/controller/imagesecret/secretreconciler.go:220-258 | so it is, and the Secret is the version that the run read or wrote, if outsiders left it alone since |
| RotationReady.ReadyRestsOn | pkg/controller/imagesecret/secretreconciler.go:220-258 | every Ready that is stored rests on a past version of the Secret that its run read, or on one that it wrote, so the exact condition above applies to each |
| RotationReady.OnlySuccessTurnsReady | pkg/controller/imagesecret/secretreconciler.go:233-258 | no other status write makes a resource ready that was not |
| RotationReady.MissingRegistryIsStored | pkg/controller/imagesecret/secretreconciler.go:194-200 | over histories of interleaved runs: whenever a run that found no registry writes the status, the resource is not ready, with reason RegistryUnavailable |
| RotationReady.SecretKept | pkg/controller/imagesecret/secretreconciler.go:329-345 | no run overwrites a Secret that bears the stored rotation |
| RotationReady.OutsiderBreaksReady | pkg/controller/imagesecret/secretreconciler.go:233-258 | a history in which an outsider deletes the Secret, or drops its annotation, before the report: Ready is stored and nothing agrees |
| RotationSync.UndisturbedReadyMeansInSync | pkg/controller/imagesecret/secretreconciler.go:220-241 | a run on current reads that reports success, whatever happens to its writes, leaves everything in sync including the live account |
| RotationSync.SettledRun | pkg/controller/imagesecret/secretreconciler.go:220-240 | in sync and within the interval, a run changes neither account, Secret nor rotation and returns after 30 s to interval + 30 s, when the renewal is due |
| RotationSync.FinalizerRuns | pkg/controller/imagesecret/secretreconciler.go:163-192 | a first run only sets the finalizer; a run for a deleted resource removes accounts of the stored registry namespace only and lets the resource go |
| RotationSync.FreeNameSyncs | pkg/controller/imagesecret/secretreconciler.go:293-346 | a due run whose next account name is free ends in sync |
| RotationSync.TakenNameSkips | pkg/controller/imagesecret/secretreconciler.go:226-231 | a due run whose next account name is taken uses up that rotation and leaves the resource due |
| RotationSync.Converges | pkg/controller/imagesecret/secretreconciler.go:220-231 | fault-free runs end in sync after at most one attempt more than there are colliding accounts |
| RotationSync.ForgottenFailure | pkg/controller/imagesecret/secretreconciler.go:226-230 | exactly when a run that cannot hash its password or loses its claim request is neither retried nor visible |
| Auth.LoadedLabels | pkg/auth/auth.go:95-105 | `origin` and `account` override the labels of the account's spec, all others are kept |
| Auth.Authenticator.AddToCache | pkg/auth/auth.go:110-122 | publishes a new map with the unexpired entries and the new one, and leaves the old map as it was |
| Auth.Authenticator.Find | pkg/auth/auth.go:80-108 | a hit is an unexpired cache entry, a miss loads and caches the account, errors are passed on |
| Auth.Authenticator.Login | pkg/auth/auth.go:69-78 | returns labels, and an error, exactly as specified for name, password and answer |
| Auth.LoginOutcome | pkg/auth/auth.go:69-122 | labels, error and new cache of a login on written-out entries: only a failed lookup other than not found is an error, a hit within 10 minutes is not loaded again, and what is loaded joins the entries not older than 10 minutes |
| Auth.EmptyLogin | pkg/auth/auth.go:69-70 | without name or password nothing is looked up and nothing is granted |
| Auth.AccountStore.ReconcileExpiry | pkg/controller/imageregistryaccount/imageregistryaccount_controller.go:50-81 | deletes an account only when its time to live has passed, and otherwise asks to return 10 s after it has |
| AuthProtocol.StepKeepsInv | pkg/auth/auth.go:69-122 | logins in any interleaving, the expiry controller and outsiders keep the cache invariant |
| AuthProtocol.ReadsAreTrue | pkg/auth/auth.go:85-105 | every read on record saw the account that the API held at that instant |
| AuthProtocol.AcceptanceIsJustified | pkg/auth/auth.go:69-108 | every acceptance rests on a read at most 10 minutes old of an account whose hash matches and whose labels are returned |
| AuthProtocol.RevocationBound | pkg/auth/auth.go:30-32 | no account is accepted later than timestamp + time to live + 10 s + lateness + 10 min, if its time to live is not under -10 s plus the rounding of timestamps; with that rounding added, from -10 s on |
| AuthProtocol.PlainBoundFailsIff | pkg/controller/imageregistryaccount/imageregistryaccount_controller.go:68-77 | some history exceeds that bound if and only if the time to live is under -10 s plus the rounding |
| AuthProtocol.NoLostUpdates | pkg/auth/auth.go:110-122 | an added entry stays published until it expires or is replaced, whoever adds concurrently |
| AuthProtocol.AddIsAtomic | pkg/auth/auth.go:110-122 | a locked add yields at least the entries of the map published just before that are unexpired at its end and at most those unexpired at its start, and the new entry; exactly these, none older than 10 minutes, if it takes no time |
| AuthProtocol.LoginIsPath | pkg/auth/auth.go:69-108 | an undisturbed login, whatever is cached and whatever the API answers, takes steps of the protocol and ends with the authenticator's map and labels |
| AuthProtocol.ExpiryIsStep | pkg/controller/imageregistryaccount/imageregistryaccount_controller.go:50-81 | a run of the expiry controller is a step of the protocol that is woken when it asks to be |
| Continuity.SecretAcceptedIff | pkg/controller/imagesecret/secretreconciler.go:220-240 | at every instant at which the Secret bears an annotation, also during rotations, crashes and lost writes, with stale reads, accounts of other resources and outsiders writing the Secret: its credentials are accepted if and only if the cache holds no unexpired entry with another password for that name |
| Continuity.BlocksEnd | pkg/auth/auth.go:80-108 | such an entry was loaded before the Secret's account was created, and blocks until 10 minutes after that at most |
| Continuity.SecretAlwaysAccepted | pkg/controller/imagesecret/secretreconciler.go:220-240 | if nobody else held, had loaded or had cached the account names when the resource was created, the credentials of an annotated Secret are accepted at every instant |
| Continuity.SecretGrantsIff | pkg/controller/imagesecret/secretreconciler.go:302-346 | at every such instant: a login with the Secret is granted exactly the labels of its resource, origin and account name if and only if the cache holds no unexpired entry with another password or other labels, and such an entry was loaded before the account existed |
| Continuity.SecretAlwaysGrants | pkg/controller/imagesecret/secretreconciler.go:302-346 | from a clean start it is granted exactly these at every instant |
| Continuity.CachedNameBlocks | pkg/auth/auth.go:80-108 | a history in which the name of an expired but cached account is used and the Secret is not accepted |
| Continuity.OldAccountOutlivesRotation | pkg/controller/imagesecret/secretreconciler.go:220-240 | the replaced account outlives the rotation by at least ttl/2 - 30 s - lateness, where lateness is d for current and 2d for stale reads |
| Continuity.PasswordsAreRotated | pkg/controller/imagesecret/secretreconciler.go:223-240 | the stored password belongs to an account no older than interval + 30 s + lateness, where lateness is d for current and 2d for stale reads |
| Continuity.StaysMarked | pkg/controller/imagesecret/secretreconciler.go:322-346 | once the Secret holds credentials it does so until an outsider edits, deletes or replaces it |
| OwnerRefs.DelRefEffect | pkg/backrefs/ownerrefs.go:37-47 | the owner's entry is gone, uniqueness holds and all other entries keep their order |
| OwnerRefs.AddRefEffect | pkg/backrefs/ownerrefs.go:13-35 | the owner's UID is listed in one entry that replaces a stale one, uniqueness and all other entries in order are kept, and adding again changes nothing |
| OwnerRefs.DelAfterAdd | pkg/backrefs/ownerrefs.go:13-47 | deleting after adding restores a list that did not have the owner |
| OwnerRefs.RunKeepsOthers | pkg/backrefs/ownerrefs.go:13-47 | any sequence of additions and deletions keeps uniqueness and the order of the entries it does not name |
| OwnerRefs.Referrer.DelReference | pkg/backrefs/ownerrefs.go:37-47 | the shift in the backing array removes exactly the first matching entry |
| OwnerRefs.Referrer.AddReference | pkg/backrefs/ownerrefs.go:13-35 | the list becomes the specified one, in the old backing array or a new one |
| BackRefs.Handler.DiffRefs | pkg/backrefs/refhandler.go:108-130 | the entries only in the old and only in the new list, in order |
| BackRefs.Handler.DeleteOldRefs | pkg/backrefs/refhandler.go:86-106 | reads each Secret, skips missing and unrelated ones, stops at the first failed read or write other than not found |
| BackRefs.Handler.AddNewRefs | pkg/backrefs/refhandler.go:73-84 | updates each Secret that lacks the owner's UID from the copy that was read, stops at the first failure |
| BackRefs.Handler.UpdateRefs | pkg/backrefs/refhandler.go:51-71 | deletion, then the status write if the sets differ, then addition, each only after the one before succeeded |
| BackRefs.ReferenceOwner.SetStatusReferences | pkg/controller/imagebuildenv/inputstatusrefs.go:24-30 | the status lists the names of the references in order and nothing else changes |
| BackRefs.NoDifference | pkg/backrefs/refhandler.go:108-130 | the status write is skipped if and only if both lists have the same elements |
| BackRefs.DeleteOldEffect | pkg/backrefs/refhandler.go:86-106 | no named Secret mentions the owner after success, other owners' entries are untouched, and without faults the call succeeds |
| BackRefs.AddNewEffect | pkg/backrefs/refhandler.go:73-84 | after success every given Secret's list is its old one with the owner added, and no other Secret changes |
| BackRefs.AddedBears | pkg/backrefs/ownerrefs.go:13-35 | adding lists the owner's UID, and makes a back reference if and only if the owner does not control the object |
| BackRefs.UpdateReferencesSucceeds | pkg/backrefs/refhandler.go:51-71 | after success from any safe state the stored status names exactly the requested Secrets, exactly those bear a back reference (or list the owner as controller already), and other owners' entries, all data, the rest of the ImageBuildEnv and other ImageBuildEnvs are untouched |
| BackRefs.SecondCallWritesNothing | pkg/backrefs/refhandler.go:51-71 | a call right after a successful one with the same Secrets performs no write |
| BackRefs.FaultFreeCallSucceeds | pkg/backrefs/refhandler.go:51-84 | a fault-free call succeeds if and only if no Secret without the owner is requested twice |
| BackRefs.StoredOrder | pkg/backrefs/refhandler.go:61-68 | exactly when the stored list equals the request also in order |
| BackRefs.OrderIsNotStored | pkg/backrefs/refhandler.go:61-68 | two Secrets in the other order are not persisted |
| BackRefs.ControlledAfterUpdateIff | pkg/backrefs/refhandler.go:51-71 | after a successful call the owner controls a Secret if and only if it did before and the Secret is not one that was listed and no longer is |
| BackRefs.UnlistedOutputLosesController | pkg/backrefs/ownerrefs.go:37-53 | so a controlled Secret that was listed and no longer is loses its controller |
| BackRefsProtocol.StepKeepsInv | pkg/controller/imagebuildenv/imagebuildenv_controller.go:103-187 | no step of the worker, the write of its output Secret among them, no failed read, lost write or crash and no outsider breaks the invariant |
| BackRefsProtocol.NoBackReferenceOutlivesOwner | pkg/controller/imagebuildenv/imagebuildenv_controller.go:121-160 | in every state of every history a back reference leads to an existing ImageBuildEnv of that UID with the finalizer that lists the Secret |
| BackRefsProtocol.UpdateIsHistory | pkg/backrefs/refhandler.go:51-106 | every call, whatever happens to its writes, is a stretch of the protocol |
| BackRefsProtocol.DeletionDependsOnRead | pkg/backrefs/refhandler.go:86-106 | a deletion that reports success removed the reference if and only if there was none or the read showed it |
| BackRefsProtocol.HiddenReferenceOutlivesOwner | pkg/controller/imagebuildenv/imagebuildenv_controller.go:121-135 | a history from an empty namespace, loose in one deletion read only, ends with the owner gone and the Secret still referring to it |
| BackRefsProtocol.OutdatedOwnerSafeIff | pkg/backrefs/refhandler.go:51-71 | with an outdated owner: a list that differs from the request makes the call fail safely; one that has it makes it succeed, and the outcome is safe if and only if every requested Secret had the owner or is listed by the stored ImageBuildEnv |
| BackRefsProtocol.OutdatedOwnerIsUnsafe | pkg/backrefs/refhandler.go:61-70 | the unsafe case on one Secret, without any assumption about the rest of the namespace |
| ImageBuildEnv.Reconciler.Run | pkg/controller/imagebuildenv/imagebuildenv_controller.go:103-187 | finalizer, references, output Secret and condition are written, and the run ends, in the order and under the conditions of the specification function |
| ImageBuildEnv.Reconciler.UpsertMergedSecret | pkg/controller/imagebuildenv/imagebuildenv_controller.go:210-223 | the output Secret is created with the resource as controller, or only its data updated, if it differs |
| ImageBuildEnv.OutputNamesDistinct | pkg/controller/imagebuildenv/imagebuildenv_controller.go:212 | two resources of a namespace never share an output Secret |
| ImageBuildEnv.ReportedOrFailed | pkg/controller/imagebuildenv/imagebuildenv_controller.go:149-187 | whatever a run for a live resource meets and loses: it fails, which takes a lost report or a lost answer to the list's write, or it has stored the condition and reason for a missing Secret, failed references, an invalid Secret, failed or starting Redis, a failed output, or success, and then the output Secret holds the merged data |
| ImageBuildEnv.MissingSecretRun | pkg/controller/imagebuildenv/imagebuildenv_controller.go:149-155 | a missing Secret changes the condition only and is retried after 30 s |
| ImageBuildEnv.RepeatedFailureIsDone | pkg/controller/imagebuildenv/imagebuildenv_controller.go:156-160 | a failed reference update that is stored already ends the run as done, without a write |
| ImageBuildEnv.FailedFinalizing | pkg/controller/imagebuildenv/imagebuildenv_controller.go:121-135 | a run for a deleted resource fails if not all references are removed or the finalizer is not known to be; unless that write took effect unnoticed the finalizer stays |
| ImageBuildEnv.LostFinalizer | pkg/controller/imagebuildenv/imagebuildenv_controller.go:137-147 | a finalizer that is not known to be set fails the run and is reported |
| ImageBuildEnv.RunIsHistory | pkg/controller/imagebuildenv/imagebuildenv_controller.go:103-187 | every undisturbed run is a history of the protocol and ends in a safe state |
| ImageBuildEnv.FinalizedLeavesNothing | pkg/controller/imagebuildenv/imagebuildenv_controller.go:121-135 | when a run has let the resource go no Secret bears a back reference to it |
| ImageBuildEnv.SyncingRun | pkg/controller/imagebuildenv/imagebuildenv_controller.go:149-187 | an undisturbed run stores the list of the spec, exactly those Secrets bear the resource, other owners' entries and other data are untouched, and the output Secret holds the merged data, with the resource as its one owner and controller if the run created it |
| ImageBuildEnv.SyncingRunReports | pkg/controller/imagebuildenv/imagebuildenv_controller.go:162-187 | and it says ready if and only if the Secrets could be merged and Redis is ready |
| ImageBuildEnv.OutputControlledIff | pkg/controller/imagebuildenv/imagebuildenv_controller.go:210-223 | after the run the resource controls its output Secret if and only if the run created it, or it was controlled before and is not one that was listed as an input and no longer is |
| ImageBuildEnv.SyncingRunKeepsManaged | pkg/controller/imagebuildenv/imagebuildenv_controller.go:149-187 | the state that such a run leaves, output Secret included, is one that the next run can start from |
| ImageBuildEnv.FinalizingRun | pkg/controller/imagebuildenv/imagebuildenv_controller.go:121-135 | an undisturbed run for a deleted resource removes every back reference, the finalizer, and the resource unless others bear finalizers |
| ImageBuildEnv.FirstRun | pkg/controller/imagebuildenv/imagebuildenv_controller.go:137-147 | the first run sets the finalizer and nothing else |
| Certs.RenewalAtThreeQuarters | pkg/certs/keypair.go:78-86 | renewal is due a quarter of the lifetime, rounded down, before the end, and what is not due has at least that left |
| Certs.EncodedValidity | pkg/certs/keypair.go:126-157 | the stored certificate keeps the lifetime and is due less than a second before the one in memory |
| Certs.MapRoundTrip | pkg/certs/certmanager.go:134-147 | storing and loading a pair, and loading and storing its entries, are inverse |
| Certs.MakeFits | pkg/certs/keypair.go:88-157 | a generated pair is of the requested kind and lifetime, not due, signed by the CA's key and shown with the CA's certificate |
| Certs.CaAsMade | pkg/certs/keypair.go:88-104 | the stored CA certificate field by field: common name, five years from the second of its making, signed with its own key |
| Certs.ServerAsMade | pkg/certs/keypair.go:106-124 | the stored server certificate field by field: first name as common name, all names, 90 days, signed with the CA's key, and the CA's certificate beside it |
| Certs.UnmanagedIsNeverChanged | pkg/certs/certmanager.go:94-100 | a Secret not labelled as managed is never changed, whatever was read of it |
| Certs.SuccessHolds | pkg/certs/certmanager.go:78-113 | a successful call leaves a managed pair of the requested kind that is not due, with labels and owner set |
| Certs.ServerSecret | pkg/certs/certmanager.go:72-113 | after a successful call on a current read the Secret is of the managed type with labels and owner, and its entries are the stored ones if they are a server pair for exactly these names that is not due, and else a new pair |
| Certs.CaSecret | pkg/certs/certmanager.go:66-113 | the same for a CA, which is kept while it is a CA's pair that is not due and else replaced by a new one |
| Certs.RefusedIff | pkg/certs/certmanager.go:89-100 | each refusal as an if-and-only-if: another controller, an unmanaged Secret that is valid, one that is not |
| Certs.RepeatKeepsKeys | pkg/certs/certmanager.go:101-107 | while the pair holds, a call changes no key material, and an identical one writes nothing |
| Certs.FaultFreeCallSucceeds | pkg/certs/certmanager.go:78-113 | a fault-free call succeeds if and only if there is no Secret or a managed one that nobody else controls |
| Certs.UnmanagedRootIsAccepted | pkg/certs/certmanager.go:58-64 | an unmanaged root Secret is accepted if and only if it parses and is not due |
| Certs.AcceptedRootIsCa | pkg/certs/certmanager.go:58-70 | the accepted root pair is a CA exactly if the Secret is managed or its certificate is one |
| Certs.WakeUpFindsRenewalDue | pkg/controller/caroot/caroot_controller.go:69-78 | at the wake-up the stored pair is due, a managed one is then replaced and an unmanaged one reported; the delay is positive exactly before renewal + 30 s |
| CertRenewal.StepKeepsInv | pkg/certs/certmanager.go:78-113 | calls with stale reads and lost writes keep all versions in order of their renewal times |
| CertRenewal.NeverExpired | pkg/certs/certmanager.go:78-113 | if successful calls are at most a quarter of the lifetime apart, the stored certificate is valid at every instant |
| CertRenewal.KeysChangeOnlyWhenDue | pkg/certs/certmanager.go:103-106 | a step replaces the pair only if it did not parse, was due or not of the kind |
| CertRenewal.UnmanagedStays | pkg/certs/certmanager.go:94-100 | over any sequence of calls an unmanaged Secret stays the only version |
| CertHierarchy.EndsBeforeIssuerIff | pkg/certs/keypair.go:20-24 | a server certificate ends by the end of its CA if and only if the CA is at most caTTL/4 - certTTL past its renewal time |
| CertHierarchy.StepKeepsOk | pkg/controller/imageregistry/imageregistry_reconcile_certs.go:64-71 | every version of the server Secret was issued from some version of the root Secret whose certificate is shown beside it |
| CertHierarchy.ServerCertificateIsBacked | pkg/controller/imageregistry/imageregistry_reconcile_certs.go:64-71 | in every state `ca.crt` is the actual signer's certificate, also after the root was replaced, and the server certificate does not outlive an operator-generated CA |
| CertHierarchy.SignerShownIff | pkg/certs/keypair.go:126-157 | the certificate shown is the signer's if and only if the root pair's key belongs to its certificate |
| CertHierarchy.OperatorRoots | pkg/certs/keypair.go:88-104 | without outsiders every root version is a CA of the full lifetime whose key belongs to it |
| CertSchedule.StepKeepsInv | pkg/controller/caroot/caroot_controller.go:69-78 | on the root reconciler's schedule, with stale reads and lost writes, the next run is due at most 30 s and the fraction of a second after the stored root's renewal time |
| CertSchedule.RootNeverExpires | pkg/controller/caroot/caroot_controller.go:69-78 | if that and the lateness fit into a quarter of the CA's lifetime the root CA is valid at every instant |
| CertSchedule.ScheduleIsRun | pkg/controller/imageregistry/imageregistry_reconcile_certs.go:64-71 | if they fit into caTTL/4 - certTTL the proviso on the issuing CA holds whenever a server certificate is issued from the stored root |
| CertSchedule.ServerCertificateIsBacked | pkg/controller/imageregistry/imageregistry_reconcile_certs.go:64-71 | end to end: `ca.crt` is the actual signer's certificate, that signer is a CA, and the server certificate does not outlive it |
| CertManager.EqualNames | pkg/certs/certmanager.go:149-159 | true if and only if both lists are equal |
| CertManager.IsUnfit | pkg/certs/certmanager.go:115-123 | a server pair is unfit if it is a CA or has other names, a CA pair if it is no CA |
| CertManager.CertManager.RenewCertSecret | pkg/certs/certmanager.go:78-113 | creates, updates or refuses as the specification function says |
| CertManager.CertManager.Modify | pkg/certs/certmanager.go:87-108 | what the closure makes of the Secret: owner, refusal of unmanaged ones, labels, type, and a new pair if needed |
| CertManager.CertManager.RenewRootCACertSecret | pkg/certs/certmanager.go:58-64 | tolerates a valid unmanaged Secret and no other error |
| CertManager.CertManager.ReconcileRoot | pkg/controller/caroot/caroot_controller.go:69-78 | renews the root CA and returns the delay until renewal + 30 s |
| CertManager.CertManager.ReconcileTLSCert | pkg/controller/imageregistry/imageregistry_reconcile_certs.go:42-84 | fails without a readable root CA and else renews the server certificate with it; success leaves a certificate that is not due for exactly the registry's hosts, written out in the source's order, and a new one has the external host as common name |
| CertManager.CertManager.ReconcileTokenCert | pkg/controller/imageregistry/imageregistry_reconcile_certs.go:15-40 | renews a CA named after the registry's `.svc` host; success leaves a CA that is not due, controlled by the registry, and a new one has that common name |
| CertManager.DnsNamesOfRegistry | pkg/controller/imageregistry/imageregistry_reconcile_certs.go:75-84 | the names are exactly the host in the configured zone, the cluster-internal and the `.svc` one, in this order, the external host once and first, and distinct if and only if the zone is not `svc` |
| Registry.MergeConditions | pkg/controller/imageregistry/imageregistry_reconcile.go:144-150 | new conditions override stored ones in any iteration order, and a change is reported if and only if something changed |
| Registry.Reconciler.ReconcileStatefulSet | pkg/controller/imageregistry/imageregistry_reconcile_svc.go:100-148 | the ready condition is computed from what was read, before annotation and spec are replaced and written |
| Registry.Reconciler.StoreStatus | pkg/controller/imageregistry/imageregistry_reconcile.go:125-162 | a failed task makes Synced and Ready false, and the status is written only if anything in it changed |
| Registry.Reconciler.Run | pkg/controller/imageregistry/imageregistry_reconcile.go:117-165 | the tasks run up to the first failure and the outcome is stored as the specification function says |
| Readiness.StepKeepsInv | pkg/controller/imageregistry/imageregistry_reconcile_svc.go:100-148 | runs with stale reads, lost writes and crashes, the StatefulSet controller and outsiders keep the handshake's invariant |
| Readiness.ReadyMeansRolledOut | pkg/controller/imageregistry/imageregistry_reconcile_svc.go:110-141 | the computed condition is true only for a StatefulSet whose spec was built from this generation and is fully rolled out |
| Readiness.ReadyIsEarned | pkg/controller/imageregistry/imageregistry_reconcile.go:117-165 | stored Ready with observed generation g implies that the controller had observed the spec built from g with all replicas ready and updated, and that all tasks of that run succeeded |
| Readiness.PastWasStored | pkg/controller/imageregistry/imageregistry_reconcile_svc.go:100-148 | a recorded version of the StatefulSet was stored at some point of the history |
| Readiness.SpecsAreStable | pkg/controller/imageregistry/imageregistry_reconcile.go:99-115 | the spec that a generation stands for never changes |
| Readiness.UndisturbedRun | pkg/controller/imageregistry/imageregistry_reconcile.go:99-165 | the whole status after an undisturbed run on current reads: observed generation, hostname, TLS Secret, synced, and ready if and only if the StatefulSet is rolled out for the current generation; and the StatefulSet's spec, generation and hostname annotation |
| Readiness.StatusIsPublished | pkg/controller/imageregistry/imageregistry_reconcile.go:125-162 | over histories: once a run wrote the status it has the hostname, the TLS Secret of the spec of its observed generation, and Synced true exactly if no task failed |
| Readiness.WrittenSts | pkg/controller/imageregistry/imageregistry_reconcile_svc.go:100-148 | a StatefulSet that a run writes has the spec built from the registry, both annotations, and its old status |
| Readiness.FailedTaskRun | pkg/controller/imageregistry/imageregistry_reconcile.go:120-163 | a run whose k-th task is the first to fail reports an error, stores Synced false with the error and Ready false, and has written the StatefulSet only if its task came before |
| Readiness.LostStsRun | pkg/controller/imageregistry/imageregistry_reconcile.go:120-163 | so does a run that loses the write of the StatefulSet |
| Readiness.PublishedNames | pkg/controller/imageregistry/imageregistry_reconcile.go:224-233 | hostname and name of the TLS Secret that the operator publishes, written out |
| Readiness.ChangedRenderingIsReadyEarly | pkg/controller/imageregistry/imageregistry_reconcile_svc.go:100-148 | with a changed rendering of the same spec the run that replaces the StatefulSet says ready |
| Readiness.RunIsHistory | pkg/controller/imageregistry/imageregistry_reconcile.go:99-165 | every run, whatever it read and whichever tasks and writes fail, is a history of the handshake |
| Readiness.DecimalTellsGenerationsApart | pkg/controller/imageregistry/imageregistry_reconcile_svc.go:106 | decimal annotations tell generations apart, as the handshake assumes |

## Left out

- Manager setup, watches, command line, plugin wiring, logging, metrics, environment parsing, deployment files and generated code: plumbing without state of its own. Watches appear as steps that may happen at any time.
- Internals of RSA, X.509, PEM, bcrypt, JSON and YAML: abstract, as described above. A missing PEM block and a failing key generation, on which the code dereferences nil, are excluded by precondition (`HasBlocks`).
- The cert-manager branches, RBAC objects, Service, PersistentVolumeClaim, redis objects, pod spec contents: record construction. The StatefulSet's spec is an arbitrary function of the registry's spec. The other tasks of the registry's reconciler appear by their success or failure.
- `pkg/merge` and `pkg/passwordgen`: small helpers.
- The docker_auth plugin's return values: acceptance is modelled as labels that are not nil.
- Exactness of account cleanup: what the API server makes of a selector that is no valid label value is not part of this model. `DeleteOrphans` removes an arbitrary subset of the namespace's accounts, and nothing is claimed about which.
- One lifetime of a resource: agreement of Secret and account, and readiness, are stated from the creation of the resource on. If it is deleted and created again while its old Secret or StatefulSet survives, counters restart and old annotations can be mistaken for new ones.
- `RotationDate`: an informative field.
- Integer widths: rotation, generation and durations are unbounded. 2^63 is out of reach for the counters, and durations saturate beyond 292 years.
- Version changes by updates without effect: the API server skips those, the model counts them as a new version.
- Continuity.SecretAcceptedIff: assumes one worker, completed runs at most d late with ttl/2 at least 30 s + d (30 s + 2d with stale reads), an unchanged registry, and deletion of the resource's own accounts by expiry only, because an outage longer than that lets the account expire before its successor exists. Due times count from the clock that a run reads, so d includes the run's duration. A run that has not seen an outsider's last write to the Secret leaves a run due. Deletion of the resource ends the history.
- Back references cover one namespace, since owner references do not cross namespaces; the panics on other namespaces and on a missing kind are not modelled.
- BackRefsProtocol.NoBackReferenceOutlivesOwner: assumes a current read of the owner and deletion reads that show an existing back reference; that both are needed is shown by the lemmas named under Findings.
- CertHierarchy.ServerCertificateIsBacked: the CA that is read has to be at most caTTL/4 - certTTL past its renewal time; that this is needed is `EndsBeforeIssuerIff`, and `CertSchedule` shows when the root's own schedule provides it, for issuance from the stored root.
- AuthProtocol: reading an account and stamping it are one instant, and the authenticator does not restart; in `Continuity` it may.
- ImageBuildEnv.Reconciler.Run: what merging gives is a parameter here, since the merge is proved in `SecretMerge`; of Redis only the outcome appears; and the first read of the resource succeeds.
- The lookup of the registry for a pull or push Secret (default names, its readiness, the CA's Secret) appears by its outcome.
- RotationReady.ReadyAgrees: the account may have expired or been deleted since the run read or created it; the statement says that then, and only then, the state is not in sync.
