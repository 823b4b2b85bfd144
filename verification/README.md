# Verified model of azurerator

Azurerator is a Kubernetes operator. For each `AzureAdApplication` resource it keeps an application in a remote directory
(Entra ID), a set of Secrets with its credentials, and the status and annotations of the resource itself, while other
writers change all of them. This project models the parts of it that are hard to get right, and proves what they promise.
Remote calls may fail anywhere, and a call that fails may still have taken effect. The clock never goes backwards.

To verify everything: `dafny verify dfyconfig.toml`.

## The four components

**Credential lifecycle.** `Revocation` says which registered credentials a rotation or cleanup keeps; keys and passwords
follow one policy. `KeyCredential`, `PasswordCredential` and `CredentialsClient` are the remote operations, on the state of
`Environment.World`; each states what it retains whatever fails. `Secrets` is the round trip through a Secret, `Options`
the flags, and `Reconciler` one whole reconcile, in the order of the source. `Outcomes` says what that comes to, with all
conditions written out over the resource, the secrets and the directory: which set is written, and that it can be used
(`SetAsAsked`, `SetCanBeUsed`), what the secret and the status tell (`SecretTells`, `StatusTells`), what calls for work
(`WorkIsDone`), what is cleaned up (`NeedlessAreGone`), and whose resources are left alone (`TenantsAreKeptApart`). `Runs`
puts reconciles and the acts of others into runs, in which pods come and go: `RunKeepsCredentials`, `RunHoldsItsKeys`,
`NextValidationSucceeds`, `ZeroDowntime`, `RotationHandsOver`, `InstallingRevokesNoMember`, `NoLeak`,
`DirectoryFollowsSpec` and `QueuedEntriesAreWorkedOff`.

**Resync cascade.** `Annotations` shows that the comma-separated annotation refines a queue; `Completion` is the merge at
the end of a reconcile, with the exact condition under which a wake-up is lost; `Synchronizer` is the fan-out of one event,
and `Sweeper` the periodic sweep. `Cascade` is the protocol that they form: reconciles read their queue, read the
directory and emit an event, report, and settle, with the steps of everything else in between: failures, registrations
without an event, events that are given up, and apps that are removed and created anew. `NoneForgottenKept` and
`QuietMeansConsistent` are its safety, with the exact condition under which a consumer is left behind, and
`MissedEvent.StaleForGood` an input of that kind. `NoInfiniteRun`, `UnconvergedCanStep`, `ConvergedMeansAssigned` and
`NewIdsAreKnown` say that without further disturbance every run ends, with no fairness assumed, and what has been made
good by then. `Propagation` ties the fan-out and the sweep, as they are programmed, to the steps of this protocol: a call
for an event takes the listing of the event and one mark for each app that it has marked, and leaves none on its way
unless it fails, when the event can be repeated; a sweep takes one step for each app that it has marked.

**Permission convergence.** `Permissions` and `PermissionLists` are the maps and lists of roles and scopes;
`ApplicationUpdate` has convergence to a fixed point, and the exact conditions for a name to have one ID in both lists;
`PermissionIds` keeps the IDs of different names apart. `ApplicationClient` is the whole update, in two phases: nothing
is deleted before what depends on it has been released (`Update`, `RemovalIsSafe`), and in the end the app exposes, each
app may use, and each is assigned, exactly what the rules of the spec say (`RulesAreFollowed`).

**Assignments and pre-authorized apps.** `Applications` is the directory and the cache of managed apps, whose answers are
never made up and, if negative, never older than fifteen minutes. `Assignments` plans app role assignments from a list read
once and applies them role by role in any order (`ProcessExisting`, `ProcessTwice`); `PreAuthorized` rebuilds the list of
apps that may call an app, around the entries of others, and reads it back (`ProcessAndGet`). `Entitlements` is what
the rules of a spec come to, rule by rule.

## What is worth knowing about the program

Properties that do not hold of the code in general are stated with the exact condition under which they do.

- `Completion.LostWakeUp`: resync requests that arrive while a reconcile runs are followed by no other one exactly if the
  queue had one entry at its start and all of them repeat it. In the protocol as a whole this can leave a consumer with a
  former client ID for good (`MissedEvent.StaleForGood`): exactly if the running reconcile had read the directory before
  the producer was created anew (`Cascade.MarkBecomesPending`), and nothing else makes the consumer read it again. The
  sweep does not repair this, as it leaves changed client IDs of its own cluster to the events. An event that is given up
  has the same effect on consumers that have a former client ID; where they have none, the sweep makes it good
  (`Cascade.ConvergedMeansAssigned`). An app that is registered without an event is dirty, and so reconciled again and
  announced (`NewIdsAreKnown`); an app that is removed for good stays in the status of those that list it, as neither
  events nor sweeps are about apps that are not there.
- `Completion.UpdateAnnotations`: `maps.Copy` into the annotations of a live object that has none panics. A removal that
  somebody makes while a reconcile runs is undone by the older copy (`SnapshotWins`).
- `Runs.ProtectedUnderPrefix`: a Secret that pods still use, but that was written under another key prefix, does not protect
  its credentials, since its IDs are looked up under the present prefix only; two prefixes are the same exactly if their
  upper-cased forms are (`Secrets.ReadUnderPrefix`). `Runs.EditIsSafeExactly`: since writing a Secret leaves its other
  entries in place, a prefix that is changed back can make a revoked set the latest one again (`ChangingBackFails`,
  `ChangedPrefix.ChangedBack`); a prefix that the secret never got a set under cannot (`FreshPrefixesKeepCredentials`).
- `Entitlements.ScopesAreHeldExactly`: of several rules that name one app, the first decides. Scopes and roles that only
  a later one asks for are created, but the app does not get them (`LaterRuleIsPassedOver`).
- `Runs.EditIsFollowedExactly`: whether an app is to be updated is decided by the hash in the status alone, which an
  interrupted reconcile does not write. If the app has been updated by then, and the spec is set back to what the status
  has, no reconcile brings the app back to the spec until somebody asks for it or edits it again
  (`SetBackGoesUnnoticed`, `EditedBack.SetBack`). Over runs without such an edit, the app follows the spec
  (`DirectoryFollowsSpec`).
- `ApplicationUpdate.CreateIsCoherent`, `UpdateIsCoherent`: a spec that asks for one of the two reserved names can give it
  one ID as a role and another as a scope.
- `Assignments.ProcessTwice`: a desired assignee that is not managed is never found among the existing ones, so that its
  assignment is added again the next time, which the directory refuses, and the run fails. On a directory in order this
  is the only way for an update of an app to fail (`ApplicationClient.Update`), but for calls that fail for other reasons.
- `PreAuthorized.ProcessAndGet`: for the same reason, an unmanaged app that was pre-authorized is read back as unassigned.
- docs/lifecycle.md:284-296 says that all credentials that are not in use are revoked, unless there is a single set. The
  code keeps a newest key and a newest password in any case, and revokes nothing where no credential has the operator's
  prefix (`Revocation.NewestIsKept`, `KeptAndRevokedAreComplementary`); this is what is modelled.

## Conventions

Secrets, key IDs and the directory's IDs are strings. New IDs are chosen such that they were never used before. The order
in which Go visits a map is arbitrary: such loops pick any element. The spec hash is a field of the spec, and the hash of
the spec that the app was last brought to one of the state. What the directory knows of a key or a password is the secret
that its ID was issued with. A `ghost`
out-parameter such as `kept` or `managed` names a decision that the code makes but does not return, and the contract ties it
to what was seen of the directory. Failed calls are counted, so that a contract can say what holds if none failed. Delegated
permission IDs, whose order is that of a map, are a set. The directory keeps IDs and assignment keys unique, and removes
assignments with their apps; it refuses a second assignment with the same key, and a list of pre-authorized apps that has
one twice, which does not count as a failed call.

## Model

| member | source | states |
|---|---|---|
| `Annotations.JoinUndoesSplit` | pkg/annotations/annotations.go:43-46 | joining the comma-separated parts of an annotation value gives the value back |
| `Annotations.SplitUndoesJoin` | pkg/annotations/annotations.go:80-88 | splitting what was joined from comma-free entries gives the entries back |
| `Annotations.LastEntryIsLastSegment` | pkg/annotations/annotations.go:52-57 | cutting at the last comma finds the last element of the queue |
| `Annotations.AppendedRefinesEnqueue` | pkg/annotations/annotations.go:37-48 | on the string, suppressing a repeated last entry is the same as on the queue, for any value |
| `Annotations.AddRefinesEnqueue` | pkg/annotations/annotations.go:29-49 | adding to an annotation is enqueueing, an absent key being the empty queue |
| `Annotations.RemoveRefinesDequeue` | pkg/annotations/annotations.go:74-90 | removing from an annotation takes off the first entry, and the key with the last one |
| `Annotations.OtherKeysUntouched` | pkg/annotations/annotations.go:29-90 | neither operation touches another key |
| `Annotations.EnqueueGrows` | pkg/annotations/annotations.go:43-45 | a comma-free value is appended exactly unless it equals the last entry; one with commas is never suppressed |
| `Annotations.Object.SetAnnotation` | pkg/annotations/annotations.go:16-23 | the whole new annotation map, also from an object without any |
| `Annotations.Object.AddToAnnotation` | pkg/annotations/annotations.go:29-49 | the object's queue is enqueued to, and no other key changes |
| `Annotations.Object.RemoveAnnotation` | pkg/annotations/annotations.go:64-71 | the key is gone and the others are not; a nil map stays nil |
| `Annotations.Object.RemoveFromAnnotation` | pkg/annotations/annotations.go:74-90 | the object's queue loses its first entry, and no other key changes |
| `Completion.UpdateAnnotations` | controllers/azureadapplication/azureadapplication_controller.go:338-361 | the live object ends up with the merge of both copies, and copying into a nil map panics exactly if something is left to copy |
| `Completion.MergedQueue` | controllers/azureadapplication/azureadapplication_controller.go:338-361 | the queue after the merge: the older copy's tail, unless that is empty, and else the live queue's tail |
| `Completion.AllWrittenQueue` | pkg/synchronizer/synchronizer.go:95-112 | what any writes of others make of the queue, by their requests alone |
| `Completion.AllEnqueuedUnchanged` | pkg/annotations/annotations.go:43-45 | requests leave a non-empty queue as it is exactly if each repeats its last entry |
| `Completion.AppendedEntryWakes` | controllers/azureadapplication/azureadapplication_controller.go:338-361 | whatever is appended while a reconcile runs, the annotation is still set after it, so that another one follows |
| `Completion.LostWakeUp` | controllers/azureadapplication/azureadapplication_controller.go:338-361 | requests are followed by no reconcile exactly if the snapshot had one entry and all of them repeat it |
| `Completion.AppendedEntriesAreDropped` | controllers/azureadapplication/azureadapplication_controller.go:350-353 | with two or more entries in the snapshot, what was appended in the meantime is lost from the queue |
| `Completion.SnapshotWins` | controllers/azureadapplication/azureadapplication_controller.go:345-353 | for all other annotations too the older copy overrides the live one, and a second rotation request is lost |
| `Synchronizer.EntryDeterminesProducer` | pkg/synchronizer/event.go:30-32 | different producers never share an entry, as Kubernetes names have no colons |
| `Synchronizer.AlreadyAssigned` | pkg/synchronizer/synchronizer.go:138-151 | whether a status lists the producer with its current client ID |
| `Synchronizer.NeedsResync` | pkg/synchronizer/synchronizer.go:114-160 | an app is a candidate exactly if it is not the producer, lists it, and has not its current client ID |
| `Synchronizer.CandidateExactly` | pkg/synchronizer/synchronizer.go:114-160 | whom an event is for: rules without a namespace or cluster name an app of the own one, the producer is never woken, nor an app that was assigned its client ID |
| `Synchronizer.OutcomeExactly` | pkg/synchronizer/synchronizer.go:95-112 | on the annotation as a string: its entry comes last, once, behind whatever was queued, and only the correlation ID changes beside it |
| `Synchronizer.Cluster.Resync` | pkg/synchronizer/synchronizer.go:95-112 | the newest version of one resource is marked, or, after a failure, possibly not |
| `Synchronizer.Cluster.ResyncCandidate` | pkg/synchronizer/synchronizer.go:62-88 | one listed app comes to what the event is to make of it, or stays as it is |
| `Synchronizer.Cluster.FanOut` | pkg/synchronizer/synchronizer.go:56-92 | the candidates among the apps that were done are marked and all others untouched; without an error, all were done |
| `Synchronizer.Cluster.Synchronize` | pkg/synchronizer/synchronizer.go:42-93 | a complete event of creation or update makes the producer the last entry in the queue of every other app that lists it and has not been assigned its client ID, if no call fails; nothing that was queued is lost, no other app changes, and no other event does anything |
| `Cascade.OkKept` | controllers/azureadapplication/azureadapplication_controller.go:122-168 | every step of the protocol, failures, removals and creations included, keeps its invariant |
| `Cascade.MarkBecomesPending` | pkg/annotations/annotations.go:43-45 | a mark makes its consumer read the directory again exactly if it is not one that repeats the only entry of a running reconcile that read the directory before the producer was registered |
| `Cascade.NoneForgottenKept` | pkg/synchronizer/synchronizer.go:42-93 | every step, re-registrations and events that are given up included, keeps every consumer of an emitted event assured of reading its producer's present client ID, unless it has missed the event |
| `Cascade.RunKeepsInvariant` | pkg/synchronizer/synchronizer.go:42-160 | so does every run, with reconciles interleaved and aborted, events delivered again or given up, apps removed and created anew, with another spec or none, and apps of other clusters that come and go |
| `Cascade.QuietMeansConsistent` | pkg/reconciler/azure/azure.go:119-150 | once nothing is queued, running, or on its way, a consumer of a producer that emitted an event has its present client ID exactly if it has not missed the event |
| `Cascade.MissedOnlyAsStated` | pkg/annotations/annotations.go:43-45 | a consumer misses an event only at a mark of that kind, or at an event that is given up |
| `Cascade.LocalStepDescends` | controllers/azureadapplication/azureadapplication_controller.go:265-361 | each step of one app lowers its staleness, or else the work that it is owed, or else its traffic |
| `Cascade.SyncingAppDescends` | pkg/reconciler/azure/azure.go:48-70 | reading the directory pays for the event that it emits |
| `Cascade.StepDescends` | pkg/synchronizer/synchronizer.go:42-160 | every step but failures, removals and creations lowers one lexicographic measure of the cluster |
| `Cascade.NoInfiniteRun` | pkg/synchronizer/synchronizer.go:42-160 | there is no infinite run without failures, removals and creations, in whatever order and without any fairness |
| `Cascade.UnconvergedCanStep` | pkg/synchronizer/sweeper.go:139-187 | as long as the cluster has not converged, a step is possible |
| `Cascade.ConvergedIsFinal` | pkg/synchronizer/sweeper.go:139-187 | once it has converged, none is |
| `Cascade.ConvergedMeansAssigned` | pkg/synchronizer/sweeper.go:155-187 | once converged, every app that is listed and exists is assigned, also where its event was given up; a former client ID remains only within the cluster, and only where an event was missed |
| `Cascade.NewIdsAreKnown` | pkg/reconciler/azure/azure.go:48-88 | an app that is registered by a reconcile that breaks off before its event is reconciled again: once the cluster has converged, whoever lists an app that got a client ID in the run has it exactly if it has not missed its event |
| `Propagation.ForExactly` | pkg/synchronizer/synchronizer.go:114-160 | the protocol marks an app for an event exactly if the fan-out does, on the rules and the status of the resource |
| `Propagation.FanOutRefines` | pkg/synchronizer/synchronizer.go:62-88 | marking any of those that an event is for is one listing of the protocol, and then one mark for each |
| `Propagation.Synchronize` | pkg/synchronizer/synchronizer.go:42-93 | a call for an event, failing or not, is a run of the protocol from the state that the cluster represents to the one that it represents then; without an error no mark is left on its way |
| `Propagation.FailedIsRepeated` | pkg/reconciler/azure/azure.go:137-149 | after an error the event can be repeated, with what is on its way as it was before |
| `Propagation.SweepableExactly` | pkg/synchronizer/sweeper.go:139-187 | the protocol sweeps an app exactly if the sweeper does |
| `Propagation.Sweep` | pkg/synchronizer/sweeper.go:98-137 | a sweep of up-to-date resources is a run of one sweep step for each that it has marked, and without a failure these are all that can be swept |
| `MissedEvent.StaleForGood` | pkg/annotations/annotations.go:43-45 | an input: without any failure, a cluster can converge with a consumer that keeps the former client ID of a producer that was created anew |
| `Sweeper.MarkedQueue` | pkg/synchronizer/sweeper.go:216-222 | a sweep's mark is the one entry of a queue that was empty |
| `Sweeper.DueExactly` | pkg/synchronizer/sweeper.go:139-187 | what is due: an entry that was not assigned is there now, or one of another cluster has another client ID now |
| `Sweeper.GroundsBefore` | pkg/synchronizer/sweeper.go:191-206 | grounds found late in a sweep are grounds for the sweep as a whole |
| `Sweeper.Cache.constructor` | pkg/synchronizer/sweeper.go:60-63 | the interval is at least a second, and answers are kept for no more than half of it |
| `Sweeper.Cache.Resolve` | pkg/synchronizer/sweeper.go:191-206 | an answer is what was found within the time to live; a failed lookup is neither an answer nor remembered |
| `Sweeper.Cache.HasStaleEntry` | pkg/synchronizer/sweeper.go:158-187 | one list of a status: yes only if an entry was found to be stale, no only if none is or a lookup failed |
| `Sweeper.Cache.HasResyncable` | pkg/synchronizer/sweeper.go:158-187 | both lists, likewise |
| `Sweeper.Cache.ShouldResync` | pkg/synchronizer/sweeper.go:139-153 | only a reported resource of this tenant with nothing queued is due, and it is, if its status is outdated |
| `Sweeper.Live.Resync` | pkg/synchronizer/sweeper.go:208-231 | the newest version is marked, and only if nothing is queued there |
| `Sweeper.Sweep` | pkg/synchronizer/sweeper.go:98-137 | only what is due is marked, nothing queued is overwritten, and if no call fails all that is due has an entry in the end, as far as the cache is up to date |
| `Strings.RemoveDuplicates` | pkg/util/strings/strings.go:3-14 | the same elements, each once, in the order of their first occurrence |
| `Secrets.KeysAreDistinct` | pkg/secrets/secrets.go:47-80 | for every prefix, the sixteen keys of a secret are pairwise different |
| `Secrets.PrefixInForm` | pkg/secrets/secrets.go:103-108 | a prefix is put in upper case and loses an underscore at its end; without one, it is AZURE |
| `Secrets.UnmarshalUndoesMarshal` | pkg/secrets/secrets.go:124-163 | a written private key is read back |
| `Secrets.SecretRoundTrip` | pkg/secrets/secrets.go:124-163 | a credential set without empty fields is read back from a secret as it was written, whatever else the secret holds |
| `Secrets.SecretIsOfApp` | pkg/secrets/secrets.go:145-162 | whatever the secret held before, each of the sixteen keys, given by its literal suffix, has its own field after a write, and the key set has the current private key |
| `Secrets.ExtractedExactly` | pkg/secrets/extractors.go:92-185 | a set is read from a secret exactly if the eight entries make it up and none of them is empty |
| `Secrets.ReadUnderPrefix` | pkg/secrets/secrets.go:47-108 | the current IDs of a secret are read under another key prefix exactly if both prefixes come to the same |
| `Secrets.SetBesideOther` | pkg/secrets/secrets.go:124-163 | a set that was written under one prefix can still be read after another set was written beside it |
| `Secrets.WritingKeepsOthers` | pkg/reconciler/secrets/secrets.go:124-157 | writing a set leaves all other entries of a secret as they are |
| `Secrets.ExtractedHasNoEmptyField` | pkg/secrets/extractors.go:92-185 | only complete credentials are ever extracted |
| `Secrets.IdsIn` | pkg/secrets/extractors.go:24-70 | exactly the non-empty values that the secrets have under a key |
| `Secrets.GetKeyIds` | pkg/secrets/extractors.go:24-70 | the current key and password IDs of the used and of the unused secrets |
| `Secrets.FindSecret` | pkg/secrets/extractors.go:76-90 | a secret of that name if there is one, and only then |
| `Secrets.GetPreviousCredentialsSet` | pkg/secrets/extractors.go:76-90 | the set in the named secret, used or not; no set if there is no such secret; an error if a key cannot be parsed |
| `Revocation.NewestIndex` | pkg/azure/client/keycredential/keycredential.go:190-205 | the first of the credentials that started last |
| `Revocation.KeptAndRevokedAreComplementary` | pkg/azure/client/passwordcredential/passwordcredential.go:199-244 | keeping keys and revoking passwords divide a list between them; nothing in use is revoked, and nothing at all where no credential is managed |
| `Revocation.NewestIsKept` | pkg/azure/client/keycredential/keycredential.go:178-226 | a newest credential is always kept, so that no list becomes empty, and what is neither newest nor in use is revoked |
| `Revocation.KeptLeavesOne` | pkg/azure/client/keycredential/keycredential.go:178-226 | of the keys that are not in use at most one is kept, unless none is managed |
| `Revocation.RevokingLeavesOne` | pkg/azure/client/passwordcredential/passwordcredential.go:199-244 | so for passwords, whose revoked ones are gone by their IDs |
| `Revocation.Scan` | pkg/azure/client/passwordcredential/passwordcredential.go:199-222 | the loop finds the newest credential, and whether any is managed |
| `Revocation.FilterRevokedKeys` | pkg/azure/client/keycredential/keycredential.go:178-226 | exactly the kept keys; never an empty list from a non-empty one |
| `Revocation.RevocationCandidates` | pkg/azure/client/passwordcredential/passwordcredential.go:199-244 | exactly the revoked passwords |
| `KeyCredential.Add` | pkg/azure/client/keycredential/keycredential.go:50-83 | two keys with IDs never used before are appended, and no key is lost |
| `KeyCredential.DeleteExpired` | pkg/azure/client/keycredential/keycredential.go:85-106 | all that is past may go, and nothing that is not |
| `KeyCredential.DeleteUnused` | pkg/azure/client/keycredential/keycredential.go:108-120 | the keys become the kept ones, or, after a failure, possibly stay |
| `KeyCredential.Rotate` | pkg/azure/client/keycredential/keycredential.go:124-143 | the kept keys, and a new one |
| `KeyCredential.Purge` | pkg/azure/client/keycredential/keycredential.go:145-151 | no key is left |
| `KeyCredential.Validate` | pkg/azure/client/keycredential/keycredential.go:153-176 | both keys are registered and unexpired, up to the time that passes during the call |
| `PasswordCredential.Add` | pkg/azure/client/passwordcredential/passwordcredential.go:42-55 | a password with an ID never used before, and none is lost |
| `PasswordCredential.RemoveAll` | pkg/azure/client/passwordcredential/passwordcredential.go:164-174 | only the given passwords may go, whatever fails, and all of them do if nothing does |
| `PasswordCredential.DeleteExpired` | pkg/azure/client/passwordcredential/passwordcredential.go:57-78 | no password goes that is not past, and if no call fails none is left that was |
| `PasswordCredential.DeleteUnused` | pkg/azure/client/passwordcredential/passwordcredential.go:80-98 | no password goes that is in use or newest, and if no call fails none is left that is revoked |
| `PasswordCredential.Rotate` | pkg/azure/client/passwordcredential/passwordcredential.go:100-122 | a new password; none goes that is in use or newest, and if no call fails none is left that is revoked |
| `PasswordCredential.Purge` | pkg/azure/client/passwordcredential/passwordcredential.go:124-137 | no password is left, if no call fails |
| `PasswordCredential.Validate` | pkg/azure/client/passwordcredential/passwordcredential.go:139-162 | both passwords are registered and unexpired, up to the time that passes during the call |
| `CredentialsClient.ProtectedSetLives` | pkg/azure/client/credentials.go:27-148 | a set whose members are protected stays registered through any operation, except for what expires |
| `CredentialsClient.LivingSetIsValid` | pkg/azure/client/credentials.go:151-163 | a registered set none of whose members has expired passes validation |
| `CredentialsClient.Add` | pkg/azure/client/credentials.go:27-72 | an altogether new and registered set without empty fields, whose keys and secrets go with its IDs, and everything protected is retained, whichever call fails |
| `CredentialsClient.DeleteExpired` | pkg/azure/client/credentials.go:75-87 | nothing unexpired is lost, whichever call fails, and if none does nothing past is left |
| `CredentialsClient.DeleteUnused` | pkg/azure/client/credentials.go:90-102 | nothing in use, and no member of the latest set, is lost, and if no call fails only what is kept is left |
| `CredentialsClient.Purge` | pkg/azure/client/credentials.go:105-117 | nothing is left, if no call fails |
| `CredentialsClient.Rotate` | pkg/azure/client/credentials.go:120-148 | the next credentials become the current ones and new ones the next; the result is registered, and goes with its IDs, if this was so with the latest set |
| `CredentialsClient.Validate` | pkg/azure/client/credentials.go:151-163 | true only if the whole set is registered and unexpired, and false only if it is not |
| `Options.SecretIsAlwaysWritten` | pkg/transaction/options/process.go:9-41 | no combination of flags past the check for nothing to do skips the secret, uses a set that is not there, or cleans up while rotating |
| `Environment.World.ListSecrets` | pkg/reconciler/secrets/secrets.go:159-166 | all managed secrets, and those listed as used are exactly those that pods refer to |
| `Reconciler.Prepare` | controllers/azureadapplication/azureadapplication_controller.go:170-214 | what the transaction knows is what the cluster holds; it fails only if a call does, the resource is gone, or its secret cannot be parsed |
| `Reconciler.TransactionProtects` | pkg/reconciler/secrets/secrets.go:53-84 | the IDs that the transaction protects are those of the used secrets and of the latest set |
| `Reconciler.DeleteUnusedSecrets` | pkg/reconciler/secrets/secrets.go:168-181 | no secret in use goes, and not the resource's own; on success no other is left |
| `Reconciler.ChooseSet` | pkg/reconciler/secrets/secrets.go:86-108 | the latest set if it is valid and no rotation was asked for, that set rotated if it is valid and one was, and otherwise a new one; each registered, and with the keys and secrets of its IDs if the latest set had them |
| `Reconciler.AddSet` | pkg/reconciler/secrets/secrets.go:98-102 | a registered and altogether new set, as the latest is not valid |
| `Reconciler.RotateSet` | pkg/reconciler/secrets/secrets.go:103-107 | the latest set handed over to a new next one |
| `Reconciler.CreateOrUpdate` | pkg/reconciler/secrets/secrets.go:124-157 | the secret holds the chosen set, and all that a program needs to know of its app, each under its own key, or is untouched; other entries stay |
| `Reconciler.StatusWithKeyIds` | pkg/reconciler/secrets/secrets.go:114-119 | the status gets the time and the IDs of the set exactly if it is another one than before, beside the IDs that pods use |
| `Reconciler.ProcessApplication` | pkg/reconciler/azure/azure.go:48-70 | the app is created, or brought to the spec exactly if the spec has changed or this was asked for; its credentials stay as they are |
| `Reconciler.EarlyReturnIsUnreachable` | pkg/reconciler/secrets/secrets.go:92-96 | the early return of the secret step is never taken in a reconcile |
| `Reconciler.ProcessSecrets` | pkg/reconciler/secrets/secrets.go:86-122 | success means that a registered set was written for the app that is there, and that the status tells of it |
| `Reconciler.Finalize` | pkg/reconciler/finalizer/finalizer.go:66-96 | the finalizers go only after the app was deleted, or purged if preserved; if no call fails they do go, and no credentials are left |
| `Reconciler.ProcessFinalizer` | pkg/reconciler/finalizer/finalizer.go:36-50 | past this step, the resource carries the finalizer and is not being deleted |
| `Reconciler.Orphan` | pkg/reconciler/azure/azure.go:276-295 | an ignored resource's app is deleted only if orphans are to be cleaned up |
| `Reconciler.SettleAnnotations` | controllers/azureadapplication/azureadapplication_controller.go:338-361 | the annotations that were processed are taken off, and nothing else of the resource changes |
| `Reconciler.Complete` | controllers/azureadapplication/azureadapplication_controller.go:265-303 | the status is reported before the annotations are settled |
| `Reconciler.CleanUp` | controllers/azureadapplication/azureadapplication_controller.go:137-147 | cleaning up keeps what is protected; if no call fails, only secrets in use are left, and, where this is due, only credentials to be kept |
| `Reconciler.Assess` | controllers/azureadapplication/azureadapplication_controller.go:122-147 | whether the latest set is valid in the directory, and was from the start; if no call fails, what was past or unused is gone |
| `Reconciler.Process` | controllers/azureadapplication/azureadapplication_controller.go:216-228 | app, secret and status in this order, whichever of them fails |
| `Reconciler.Synchronize` | controllers/azureadapplication/azureadapplication_controller.go:122-168 | all of a reconcile past the finalizer step |
| `Reconciler.Reconcile` | controllers/azureadapplication/azureadapplication_controller.go:83-168 | what one reconcile can do to the directory, the secrets and the resource, whichever call fails, and what it completes and cleans up if none does |
| `Outcomes.SetAsAsked` | pkg/reconciler/secrets/secrets.go:97-108 | where a rotation is due, by the annotation or another secret name, the set that is written is never the latest one: it is that one rotated, if it can be used throughout, and an altogether new one if it cannot be used at the start; where none is due, a set that can be used throughout is left as it is |
| `Outcomes.FirstSetIsNew` | pkg/reconciler/secrets/secrets.go:98-102 | where the secret holds no set, an altogether new one is written |
| `Outcomes.WorkIsDone` | pkg/transaction/options/process.go:9-41 | another hash or secret name, either annotation, age, another tenant, or a set that is missing, expired or not registered: each calls for a reconcile that completes if no call fails; without any of them, secret and resource are left alone |
| `Outcomes.SecretTells` | pkg/secrets/secrets.go:145-162 | each entry of the secret that was written, by its literal key: the client ID of the app that is there, our tenant, the apps that may call it, the endpoints, and the set |
| `Outcomes.SetCanBeUsed` | pkg/azure/client/credentials.go:27-148 | all credentials of a set that is written are registered unless they have expired, with the private keys and client secrets that go with their IDs, if this was so with the latest set |
| `Outcomes.StatusTells` | pkg/reconciler/secrets/secrets.go:114-119 | the status of a completed reconcile: secret name, hash and tenant; the IDs that pods use, and those of the set, and the time, exactly if it is another set |
| `Outcomes.AgeStartsAnew` | pkg/customresources/azureadapplication.go:24-34 | a set that was replaced is not too old until the maximum age after that |
| `Outcomes.AppIsBroughtToSpec` | pkg/reconciler/azure/azure.go:48-70 | a completed reconcile has brought the app to the spec exactly if there was no app, the hash had changed, or this was asked for |
| `Outcomes.DeletedIsLetGo` | pkg/reconciler/finalizer/finalizer.go:66-96 | both finalizers of a deleted resource go, with the app, or, if this is to be preserved, with its credentials |
| `Outcomes.PastAndUnusedAreGone` | controllers/azureadapplication/azureadapplication_controller.go:122-140 | if no call fails, what was past is gone from the directory, and every unused secret but the own one |
| `Outcomes.NeedlessAreGone` | controllers/azureadapplication/azureadapplication_controller.go:142-147 | where cleanup is set up and a valid set stays, at most one key and one password are left that neither pods nor the set need |
| `Outcomes.NeededStay` | docs/lifecycle.md:284-296 | what pods or the latest set need stays registered until it expires, whichever call fails |
| `Outcomes.TenantsAreKeptApart` | pkg/transaction/options/tenant.go:19-27 | a resource that names another tenant, or none where one is required, is left alone but for its app; the app of any other goes only when the resource is deleted |
| `Runs.StepKeepsCredentials` | controllers/azureadapplication/azureadapplication_controller.go:83-168 | the set in the secret that the status names stays registered through one reconcile, or what others do, if they set no unsafe key prefix |
| `Runs.EditIsSafeExactly` | pkg/secrets/extractors.go:76-115 | an edit of the spec keeps that exactly if the named secret holds, under the new key prefix, no set or one that is registered |
| `Runs.SameKeysAreSafe` | pkg/secrets/secrets.go:103-108 | leaving the prefix as it is, or writing it in another way, is safe |
| `Runs.NeverInstalledHoldsNothing` | pkg/secrets/secrets.go:47-80 | as long as no set is written to a secret under a key prefix, it holds none under it, whatever is written under others |
| `Runs.RunKeepsCredentials` | pkg/azure/client/credentials.go:27-163 | it is registered at every point of every run, with failures anywhere, if no orphan is cleaned up and no unsafe key prefix is set |
| `Runs.FreshPrefixesKeepCredentials` | pkg/azure/client/credentials.go:27-163 | the same by what has happened before: over runs in which each edit leaves the key prefix as it is, or sets one that the named secret never got a set under |
| `Runs.ChangingBackFails` | pkg/secrets/extractors.go:76-115 | a prefix that is changed back makes a revoked set the latest one, which the next validation rejects |
| `ChangedPrefix.ChangedBack` | pkg/secrets/extractors.go:76-115 | an input for this: a secret that got a set under one prefix and then under another |
| `Runs.NextValidationSucceeds` | pkg/azure/client/credentials.go:151-163 | so the next validation succeeds, unless a member has expired |
| `Runs.StepHoldsItsKeys` | pkg/azure/client/credentials.go:27-148 | no reconcile writes a private key or a client secret beside an ID that it does not belong to |
| `Runs.RunHoldsItsKeys` | pkg/azure/client/credentials.go:27-148 | so over any run, if no key prefix is set under which the secret holds such a set |
| `Runs.ZeroDowntime` | docs/lifecycle.md:284-296 | in a reconcile that neither deletes nor ignores the resource, the current credentials of every secret that pods refer to stay registered until they expire, whichever call fails |
| `Runs.RunKeepsUsedCredentials` | docs/lifecycle.md:284-296 | and over any run in which pods go on referring to the secret |
| `Runs.ProtectedUnderPrefix` | pkg/secrets/extractors.go:24-70 | where nothing else protects them, the current credentials of a secret in use are protected exactly if it was written under the present key prefix |
| `Runs.OtherPrefixIsRevoked` | pkg/azure/client/passwordcredential/passwordcredential.go:199-244 | otherwise they are among those to be revoked, unless they are the newest |
| `Runs.LatestSetLastsOverRun` | pkg/reconciler/secrets/secrets.go:53-84 | between two installations, and under the same key prefix, the latest set stays the same |
| `Runs.RotationHandsOver` | pkg/reconciler/secrets/secrets.go:97-108 | between two installations under the same key prefix: if the later one was asked to rotate, its set is another one, whose current credentials are the next of the earlier; otherwise it is the same one; only a set that cannot be used gives way to a new one |
| `Runs.InstallingRevokesNoMember` | pkg/transaction/options/process.go:23-27 | no reconcile both installs a set and revokes an unexpired member of the one that it replaces |
| `Runs.ReleaseIsClean` | pkg/reconciler/finalizer/finalizer.go:66-96 | an app that exists is let go of only if it was to be preserved, and then without credentials if no call failed |
| `Runs.RegistrationIsGuarded` | pkg/reconciler/finalizer/finalizer.go:52-64 | an app is registered only for a resource that already carries the finalizer |
| `Runs.NoLeak` | pkg/reconciler/finalizer/finalizer.go:36-96 | over any run, an app in the directory has a resource with the finalizer, unless it was to be preserved |
| `Runs.ReconcileFollowsSpec` | controllers/azureadapplication/azureadapplication_controller.go:265-285 | wherever it fails, a reconcile does not report a spec that the app has not been brought to |
| `Runs.EditIsFollowedExactly` | pkg/customresources/azureadapplication.go:12-18 | an edit takes the app away from the reported spec exactly if it sets the spec back to what the status has, after the app was brought to another |
| `Runs.DirectoryFollowsSpec` | pkg/transaction/options/process.go:9-41 | over any run without such an edit, the app has been brought to every spec that the status tells of |
| `Runs.SetBackGoesUnnoticed` | pkg/transaction/options/process.go:12-24 | after one, no reconcile brings the app back to the spec unless this is asked for |
| `EditedBack.SetBack` | pkg/customresources/azureadapplication.go:12-18 | an input for this: one interrupted reconcile between two edits |
| `Runs.SettledStep` | controllers/azureadapplication/azureadapplication_controller.go:132-168 | with an empty queue and nothing to do, a reconcile writes neither secret nor resource; otherwise it takes off one entry if it completes, which it does if no call fails |
| `Runs.QueuedEntriesAreWorkedOff` | controllers/azureadapplication/azureadapplication_controller.go:265-303 | with k entries queued and nothing else to do, completed reconciles and entries left always add up to k |
| `Permissions.GenerateDesiredPermissionSet` | pkg/azure/permissions/permissions.go:132-146 | exactly the names that rules have as roles or as scopes, and the two default ones, all enabled, the defaults with their reserved IDs unless the name was requested |
| `Permissions.RequestedExactly` | pkg/azure/permissions/permissions.go:182-200 | a name is requested exactly if some rule has it among its scopes or its roles |
| `Permissions.ExtractPermissions` | pkg/azure/permissions/permissions.go:168-180 | every name of both lists, scopes before roles |
| `Permissions.GeneratePreservingExisting` | pkg/azure/permissions/permissions.go:153-164 | the desired names, with existing permissions under their existing IDs, in any order of the map |
| `Permissions.PreserveExisting` | pkg/azure/permissions/permissions.go:153-164 | the loop puts what exists in the place of what is desired |
| `Permissions.ToMapNames` | pkg/azure/client/application/approle/approlemap.go:11-27 | exactly the names of the list, each with an entry of the list |
| `Permissions.ListedMap` | pkg/azure/client/application/approle/approlemap.go:29-37 | writing a map as a list and reading it back gives the map |
| `PermissionLists.CollectToCreate` | pkg/azure/client/application/approle/approlemap.go:40-59 | the missing names and the missing reserved one, the latter always with its reserved ID |
| `PermissionLists.CollectToDisable` | pkg/azure/client/application/approle/approlemap.go:62-77 | what exists and is not desired, but never the reserved name |
| `PermissionLists.CollectUnmodified` | pkg/azure/client/application/permissionscope/permissionscopemap.go:81-99 | the rest, in the standard form |
| `PermissionLists.ToSlice` | pkg/azure/client/application/approle/approlemap.go:29-37 | every entry of the map once, in any order |
| `PermissionLists.FixInPlace` | pkg/azure/client/application/permissionscope/permissionscope.go:11-27 | every element of the array is fixed, in place |
| `PermissionLists.DescribeCreate` | pkg/azure/client/application/approle/approles.go:21-24 | a list of what is to be created where there is nothing |
| `PermissionLists.DescribeUpdate` | pkg/azure/client/application/permissionscope/oauth2permissionscope.go:30-45 | a list, without duplicates, of all that exists or is desired, of which only the undesired is disabled |
| `PermissionLists.RemoveDisabled` | pkg/azure/client/application/approle/approle.go:47-57 | the enabled entries, in their order |
| `ApplicationUpdate.UpdateReachesSpec` | pkg/azure/client/client.go:226-258 | an update leaves exactly the desired names in both lists, all enabled, and every ID that existed before |
| `ApplicationUpdate.SecondUpdateChangesNothing` | pkg/azure/client/application/application.go:139-187 | updating again with the same spec changes nothing, neither at the patch nor at the end |
| `ApplicationUpdate.DeletedWasDisabled` | pkg/azure/client/application/application.go:232-249 | what the final step deletes had been disabled by the patch, which itself deletes nothing |
| `ApplicationUpdate.UpdateIsCoherent` | pkg/azure/permissions/permissions.go:132-180 | after an update a name has one ID in both lists exactly if it did before and the reserved names are free |
| `ApplicationUpdate.CreateIsCoherent` | pkg/azure/client/application/approle/approlemap.go:44-51 | a new app is coherent exactly if its spec asks for neither reserved name |
| `ApplicationUpdate.PatchIsCoherent` | pkg/azure/client/application/application.go:139-187 | so is the state that a failed update leaves behind |
| `ApplicationUpdate.UpdatesStayCoherent` | pkg/azure/client/application/permissionscope/permissionscopemap.go:40-99 | once complete and coherent, an app stays so under any updates, even where they fail half-way |
| `ApplicationUpdate.CreatedStaysCoherent` | pkg/azure/client/client.go:112-158 | so an app is coherent for good if the spec that it was created from avoids the reserved names |
| `PermissionIds.PatchKeepsIdsDistinct` | pkg/azure/permissions/permissions.go:115-146 | an update never makes an ID belong to two names, if generated IDs are new |
| `PermissionIds.UpdatesKeepIdsDistinct` | pkg/azure/client/application/application.go:139-187 | over any updates, complete or not |
| `PermissionIds.ExtractedIdsAreDistinct` | pkg/azure/permissions/permissions.go:168-180 | so roles can be told apart by their IDs where assignments are made |
| `Applications.TaggedExactly` | pkg/azure/client/application/application.go:329-334 | either of the two tags marks an app as managed |
| `Applications.ItemsWereSeen` | pkg/azure/client/application/application.go:322-341 | every cached answer was written for an earlier question |
| `Applications.AnswerWasSeen` | pkg/azure/client/application/application.go:322-341 | an answer was true of the app's tags at this or an earlier question, and, if negative, at most fifteen minutes ago |
| `Applications.StaleAnswersEnd` | pkg/azure/client/application/application.go:335-340 | fifteen minutes after an app was tagged, it is known to be managed |
| `Applications.ManagedIsForever` | pkg/azure/client/application/application.go:328-333 | once known to be managed, an app stays so, whatever becomes of its tags |
| `Applications.AgreementIsKept` | pkg/azure/client/application/application.go:270-284 | a cache that says what the tags say goes on to do so, over any questions about existing apps |
| `Applications.Lookup` | pkg/azure/client/application/application.go:197-210 | the one app that matches; none only if none does; an error if there are more |
| `Applications.ClientIdLookup` | pkg/azure/client/application/application.go:224-230 | where client IDs are unique, looking one up finds its app |
| `Applications.Cache.Get` | pkg/azure/client/application/application.go:325-327 | an item is found until it has expired |
| `Applications.Cache.IsManaged` | pkg/azure/client/application/application.go:322-341 | the answer of the cache, or else of the tags, which is then remembered |
| `Applications.GetAll` | pkg/azure/client/application/application.go:270-284 | the matching apps, about each of which the cache is asked |
| `Applications.ExistsByFilter` | pkg/azure/client/application/application.go:197-210 | what the directory holds, or an error |
| `Applications.GetSingle` | pkg/azure/client/application/application.go:307-320 | likewise, where an app that does not exist is an error as well |
| `Assignments.Difference` | pkg/azure/client/approleassignment/approleassignment.go:23-37 | exactly the elements of the one whose keys are not in the other |
| `Assignments.FilterByRole` | pkg/azure/resource/resource.go:54-73 | exactly the assignees whose rules name the role |
| `Assignments.ExtractDesiredAssignees` | pkg/azure/resource/resource.go:87-102 | exactly the assignees that are to have the role, which for a default role are all |
| `Assignments.ToAppRoleAssignments` | pkg/azure/client/approleassignment/list.go:12-20 | one assignment for each assignee, and no other |
| `Assignments.WithoutMatchingRole` | pkg/azure/client/approleassignment/list.go:75-85 | exactly the assignments whose role ID no role has |
| `Assignments.AssignFor` | pkg/azure/client/serviceprincipal/approleassignments.go:219-230 | what is added is desired; success means that all of it is there, and was not before; where no call fails, it fails only on what was there |
| `Assignments.RevokeFor` | pkg/azure/client/serviceprincipal/approleassignments.go:232-242 | what is removed is not desired, and, on success, which is when no call fails, none of it is there |
| `Assignments.PlanIsEmpty` | pkg/azure/client/serviceprincipal/approleassignments.go:165-189 | nothing is planned for a role exactly if exactly its desired assignments exist |
| `Assignments.ProcessRole` | pkg/azure/client/serviceprincipal/approleassignments.go:165-189 | one role comes to its desired assignees, and no other role is disturbed; where no call fails, it fails only on what was overlooked |
| `Assignments.IsManagedPrincipal` | pkg/azure/client/serviceprincipal/approleassignments.go:88-104 | by the cache, or else by the app's tags; the tags are right where the cache agrees with them |
| `Assignments.GetAllServicePrincipals` | pkg/azure/client/serviceprincipal/approleassignments.go:77-116 | exactly the assignments of managed service principals |
| `Assignments.ProcessEnabledRoles` | pkg/azure/client/serviceprincipal/approleassignments.go:165-189 | every enabled role comes to its desired assignees, in whatever order the roles are visited |
| `Assignments.RevokeDisabledRoles` | pkg/azure/client/serviceprincipal/approleassignments.go:191-202 | nothing that existed is left to a disabled role |
| `Assignments.NothingToChange` | pkg/azure/client/serviceprincipal/approleassignments.go:126-152 | no phase has anything to do exactly if exactly the desired assignments exist |
| `Assignments.ProcessExisting` | pkg/azure/client/serviceprincipal/approleassignments.go:126-152 | the three phases reach exactly the desired assignments in scope, touch no other, and make no call exactly if they exist; where no call fails, they succeed exactly if none was there unseen |
| `Assignments.ProcessForGroups` | pkg/azure/client/serviceprincipal/approleassignments.go:118-120 | so for groups, which succeeds if no call fails; each has the default role for groups and the roles of its rule then, and no other principal is touched |
| `Assignments.ProcessForServicePrincipals` | pkg/azure/client/serviceprincipal/approleassignments.go:122-124 | so for service principals, of which only managed ones are in scope |
| `Assignments.SeenAreOurs` | pkg/azure/client/serviceprincipal/approleassignments.go:77-116 | none was there unseen exactly if every desired assignment that was there is of a tagged app |
| `Assignments.ManagedIsFixed` | pkg/azure/client/serviceprincipal/approleassignments.go:126-152 | so for groups, and for apps that are all managed |
| `Assignments.SecondPlanIsEmpty` | pkg/azure/client/serviceprincipal/approleassignments.go:126-152 | after a complete run the next finds nothing to do exactly if everyone who wants an enabled role is managed |
| `Assignments.ProcessTwice` | pkg/azure/client/serviceprincipal/approleassignments.go:165-230 | two runs: then the second makes no call, and otherwise it cannot succeed, as it adds what is there already; where no call fails, it succeeds exactly then |
| `PreAuthorized.ValidAreNamed` | pkg/azure/client/preauthorizedapp/preauthorizedapp.go:120-154 | every valid app is named by a rule of the spec, and no two share a name |
| `PreAuthorized.NamedAreValid` | pkg/azure/client/preauthorizedapp/preauthorizedapp.go:120-154 | every rule that names an existing app has it among the valid ones |
| `PreAuthorized.InvalidAreMissing` | pkg/azure/client/preauthorizedapp/preauthorizedapp.go:204-232 | the invalid ones are exactly those that rules name and that do not exist |
| `PreAuthorized.MapToResource` | pkg/azure/client/preauthorizedapp/preauthorizedapp.go:204-222 | an app that has no service principal does not count |
| `PreAuthorized.MapDesired` | pkg/azure/client/preauthorizedapp/preauthorizedapp.go:120-154 | the loop computes these lists, and adds the app itself |
| `PreAuthorized.DesiredAreDistinct` | pkg/azure/client/preauthorizedapp/preauthorizedapp.go:120-154 | no two valid apps have the same client ID |
| `PreAuthorized.ValidAreApart` | pkg/azure/client/preauthorizedapp/preauthorizedapp.go:120-154 | on a directory in order, no two have the same service principal |
| `PreAuthorized.ToEntitled` | pkg/azure/resource/resource.go:19-40 | the entry of an app: its client ID, and the ID of a permission exactly if that is the default scope or one of its rule |
| `PreAuthorized.RebuiltHasEntries` | pkg/azure/client/preauthorizedapp/preauthorizedapp.go:156-164 | the rebuilt list has such an entry for every valid app |
| `PreAuthorized.RebuiltEntries` | pkg/azure/client/preauthorizedapp/preauthorizedapp.go:156-202 | the list has every valid app with its scopes, and of the earlier entries exactly those that are kept |
| `PreAuthorized.RebuiltIsDistinct` | pkg/azure/client/preauthorizedapp/preauthorizedapp.go:156-202 | and no app twice |
| `PreAuthorized.IsKept` | pkg/azure/client/preauthorizedapp/preauthorizedapp.go:178-194 | an entry is kept only if its app exists and was seen unmanaged within fifteen minutes, and dropped only if it does not exist or was seen managed |
| `PreAuthorized.KeepUnmanaged` | pkg/azure/client/preauthorizedapp/preauthorizedapp.go:171-195 | so for all entries that are not a valid app's |
| `PreAuthorized.Patch` | pkg/azure/client/preauthorizedapp/preauthorizedapp.go:156-202 | the list is rebuilt, or untouched; on a directory in order it fails only if a call does |
| `PreAuthorized.CacheFree` | pkg/azure/client/application/application.go:322-341 | where the cache agrees with the tags, the list is the one that there would be without a cache |
| `PreAuthorized.StaleEntriesEnd` | pkg/azure/client/application/application.go:335-340 | fifteen minutes after an app has been tagged, only the spec keeps it in the list |
| `PreAuthorized.RebuildList` | pkg/azure/client/preauthorizedapp/preauthorizedapp.go:55-69 | the apps are looked up and the list is rebuilt, which on a directory in order fails only if a call does |
| `PreAuthorized.AssignRoles` | pkg/azure/client/preauthorizedapp/preauthorizedapp.go:70-75 | the roles are assigned; where no call fails, this succeeds exactly if every desired assignment that is there is of a tagged app |
| `PreAuthorized.Process` | pkg/azure/client/preauthorizedapp/preauthorizedapp.go:55-75 | the list is rebuilt, with an entry and the scopes of its rule for every valid app, before the roles are assigned; what is kept, and which assignments are processed, is decided by the tags seen within fifteen minutes, or by the tags where the cache agrees; where no call fails, it succeeds exactly as assigning the roles does |
| `PreAuthorized.Get` | pkg/azure/client/preauthorizedapp/preauthorizedapp.go:77-114 | a valid app counts as assigned if it is in the list and has an assignment of an app seen, or known, to be managed |
| `PreAuthorized.ActualExactly` | pkg/azure/client/preauthorizedapp/preauthorizedapp.go:99-108 | of the desired apps, exactly those in the list that have an assignment count as assigned, and the others as unassigned |
| `PreAuthorized.AllAssigned` | pkg/azure/client/preauthorizedapp/preauthorizedapp.go:100-108 | the lists read back are the desired ones exactly if every valid app is assigned |
| `PreAuthorized.GetAgreesWithProcess` | pkg/azure/client/preauthorizedapp/preauthorizedapp.go:55-114 | reading back right after processing gives the same lists exactly if all valid apps are tagged as managed |
| `PreAuthorized.ValidAreRegistered` | pkg/azure/client/preauthorizedapp/preauthorizedapp.go:204-222 | every valid app is one of the directory, with its service principal |
| `PreAuthorized.ProcessAndGet` | pkg/azure/client/preauthorizedapp/preauthorizedapp.go:55-114 | the two operations, one after the other on an unchanged directory, return equal lists exactly then |
| `Entitlements.TargetExactly` | pkg/azure/client/preauthorizedapp/preauthorizedapp.go:250-260 | a rule names the app of its cluster, namespace and name; one without cluster or namespace an app of the own ones |
| `Entitlements.FirstIsValid` | pkg/azure/client/preauthorizedapp/preauthorizedapp.go:126-143 | the first rule that names an existing app decides on what it gets |
| `Entitlements.ValidHasFirst` | pkg/azure/client/preauthorizedapp/preauthorizedapp.go:126-143 | and nothing but a first rule, or being the app itself, does |
| `Entitlements.RebuiltFollowsRules` | pkg/azure/client/preauthorizedapp/preauthorizedapp.go:156-202 | the rebuilt list: every app that a rule names holds the default scope and those of the first such rule, the app itself is listed, and the rest are entries from before that are to be kept, all of them |
| `Entitlements.ReachedFollowsRules` | pkg/azure/resource/resource.go:87-102 | after a complete run every app that a rule names is assigned the default role and the enabled roles of the first such rule; what is assigned anew, or left to managed apps, is given by a rule, and all else is left alone |
| `Entitlements.ScopesAreHeldExactly` | pkg/azure/client/preauthorizedapp/preauthorizedapp.go:139-142 | every app holds all the scopes that rules ask for it exactly if the first rule that names it asks for them all |
| `Entitlements.LaterRuleIsPassedOver` | pkg/azure/client/preauthorizedapp/preauthorizedapp.go:139-142 | an input where it does not |
| `ApplicationClient.Register` | pkg/azure/client/application/application.go:101-137 | a new app has exactly the permissions that rules have as roles or as scopes, and the two default ones with their reserved IDs, in both lists, each once and enabled |
| `ApplicationClient.UpdateRegistration` | pkg/azure/client/application/application.go:139-187 | the patch adds and disables, and deletes nothing |
| `ApplicationClient.RemoveDisabledPermissions` | pkg/azure/client/application/application.go:234-249 | exactly the disabled entries of both lists go |
| `ApplicationClient.ProcessDependents` | pkg/azure/client/client.go:265-323 | the dependents are processed with the permissions that were sent, the disabled ones among them |
| `ApplicationClient.PatchRegistration` | pkg/azure/client/client.go:226-239 | the first patch and the redirect URIs: the entries are as they were or patched, and it fails only if a call does |
| `ApplicationClient.ProcessAndRemove` | pkg/azure/client/client.go:240-248 | then the dependents are processed, and only after that is anything deleted |
| `ApplicationClient.Update` | pkg/azure/client/client.go:226-258 | a complete update leaves in both lists exactly the permissions that rules have as roles or as scopes, and the default ones, enabled; the named apps hold and are assigned those of their rules; wherever it fails, the old, the patched or the updated entries are left, and none is ever deleted before all that depends on it has been released; where no call fails, it succeeds exactly if every assignment that is to be made, and is there already, is of a tagged app |
| `ApplicationClient.UpdateFollowsRules` | pkg/azure/client/client.go:226-258 | from the rules to the directory, if no two of its apps share a name or a client ID: of the entries in the lists, each named app holds by ID exactly the default scope and those of its rule, and is assigned the default role and those of its rule, where roles and scopes agree on the ID |
| `ApplicationClient.ScopesAreRequested` | pkg/azure/resource/resource.go:19-40 | a valid app gets only scopes that the spec asks for |
| `ApplicationClient.RemovalIsSafe` | pkg/azure/client/application/application.go:232-249 | when a role or scope is deleted, it is disabled, and only entries and assignments of apps that were seen, or are known, not to be tagged still hold its ID |
| `ApplicationClient.HasDefaultRoleAfterPatch` | pkg/azure/client/application/approle/approle.go:34-41 | the default role is always there, enabled, to be assigned |

## Left out

- Cascade.QuietMeansConsistent: the spec of a resource does not change as long as it is there, and an app that is not in the directory has a resource that is not yet reported.
- Cascade.NoInfiniteRun: covers runs without failures, removals and creations, since a call that fails forever is retried forever.
- Runs.RunKeepsCredentials: assumes that nobody else edits the app in the directory or the contents of a Secret.
- Runs.RunKeepsUsedCredentials: pods that begin to use a Secret while a reconcile runs are seen by the next one only; which Secrets are in use changes between reconciles here.
- Reconciler.Reconcile: other writers do not interleave with a reconcile; their writes come between reconciles here, and within one in `Completion` and `Cascade`.
- Reconciler.ProcessApplication: an update brings the app to the hash of the spec here; what it does to roles, scopes and assignments is in `ApplicationClient`, and that it sends no credentials is read off the request, not proved. The apps that may call the app are a text that does not change in a reconcile; whoever of them is valid is in `PreAuthorized`.
- Outcomes.SetCanBeUsed: that a private key opens the credential it was issued with is recorded when the ID is issued, and stands for the certificate that the key is in.
- Runs.RunHoldsItsKeys: assumes, like `RunKeepsCredentials`, that nobody else writes a Secret, and that a key prefix under which the Secret has other entries is not set.
- Propagation.Synchronize: the event is taken as one that the protocol has emitted, and other steps come before or after the call, not within it; what comes within it is in `Cascade`.
- Propagation.Sweep: the resources have not changed since they were listed, and the cache is up to date.
- Reconciler.CreateOrUpdate: entries of an existing Secret that are not credentials are kept as they are, as a merge of string data does; labels and owner references are not modelled.
- Sweeper.Sweep: the directory does not change while one sweep runs, and other writers do not interleave with it.
- PreAuthorized.Process: the apps and service principals of the directory do not change while it runs; the list and the assignments of the app itself do.
- ApplicationClient.Update: redirect URIs, permission grants, owners, claims policies, group assignment and security attributes are steps that may fail and have no other effect here; groups are processed by `Assignments.ProcessForGroups` on its own.
- ApplicationClient.Register: the retries of service principal and identifier URIs that follow the registration.
- Graph and Kubernetes HTTP calls, authentication, pagination and the Fibonacci retries: operations that succeed or fail.
- Cryptography and the JSON form of a private key: an invertible wrapper around an opaque key; upper-casing of key prefixes covers ASCII letters.
- Conflicts of concurrent updates of one resource, which are retried: an update is applied to the newest version, or fails.
- Group lookup, owners, claims-mapping policies, security attributes, redirect URIs, optional claims, identifier URIs and group membership claims: single loops or thin calls.
- Logging, events, metrics, configuration, leader election, and the caches of groups and of service principal IDs.
- Deduplicating assignees (`Resources.Add`): that assignees are distinct is needed only for success where no call fails, and is proved of apps in `PreAuthorized.ValidAreApart`.
