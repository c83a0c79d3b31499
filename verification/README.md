# A model of the etcd-cloud-operator, and what it guarantees

The operator keeps an etcd cluster alive on an auto-scaling group. One operator runs beside each etcd member. It
restarts members, lets new instances join, snapshots the store, configures the access control list and, when the
quorum is lost, makes all operators agree on the one instance from whose data a new cluster is seeded.

This project models that behaviour in Dafny and proves properties of it. Code that updates fields or loops is a class
or a method, proved against a function of its inputs or its old state. Protocols between instances, goroutines and
processes are transition systems, and what is proved about them holds in every interleaving of their steps.

## The modules

| file | subject |
|---|---|
| `Wrappers`, `Strings`, `Clock`, `Runs` | options, Go's string order, Go's saturating `time.Since`, runs of a transition system |
| `Statuses` | the published statuses; sorting, counting and electing from them |
| `Operators` | one instance: the embedded server with its data directory, `evaluate` and `execute` |
| `RunningFlag` | one operator over its whole life: the running flag and the calls that rely on it |
| `Recovery` | the disaster-recovery protocol of N operators, at most one seeder |
| `Traces`, `Recapture` | runs built step by step; what the seeder captures again decides exactly whether it can be overtaken |
| `SecondSeeder`, `Losses` | runs that go wrong: a second seeder, an unfinished snapshot file, an unreadable data directory |
| `FreshCluster` | when a cluster is started from nothing |
| `Healing` | healthy again: everybody runs and publishes OK after two ticks |
| `Durability` | the sequential code is a run of the protocol; committed revisions survive; what joining wipes |
| `Liveness` | four rounds of ticks are enough for a decision to seed |
| `FanOut` | `ForEachMember`: N goroutines, one channel, N receives |
| `Consistency` | `getSameValue`, `IsConsistent`, `GetHighestRevision` |
| `Acl`, `AclReconcile`, `AclClient` | validation of an ACL configuration, its reconciliation, and the calls it makes |
| `Cleaner` | whom the member cleaner tracks, removes and forgets |
| `JoinLock` | joining and removing members under a lock for each instance name |
| `Metadata` | snapshot file names, printed and parsed |
| `FileStore`, `Snapshots` | the file snapshot provider and `Snapshot`; many members sharing one directory |

## Main results

* **One seeder** (`Recovery.AtMostOneSeeder`). In an epoch, a stretch without a restart in which no operator observes
  etcd as healthy, all decisions to seed are made by one instance, provided that whenever the seeder has to start over,
  what it captures again is above what everybody else publishes (`StaysAhead`). Status reads, ticks and the parts of a
  tick interleave freely. The condition is exact: after a recapture some other instance can still come to seed, without
  yet another capture by the seeder, iff the recaptured revision is not above all the others
  (`Recapture.RecaptureExactly`), and every recapture that is not can be continued to a second seeder
  (`Recapture.BehindIsOvertaken`). A seeder whose snapshots cover its own database stays ahead
  (`Recovery.CoveringStaysAhead`), and `Operators.ChosenCoversDisk` says exactly when they do.
  `SecondSeeder.TwoSeeders` is a whole run that goes wrong, for all names and revisions.
* **Nothing committed is lost** (`Durability.NoCommittedRevisionLost`). Let a revision have reached a majority, before
  the epoch or in it, but before the first decision to seed, and let fewer instances than a majority have lost it, where
  an instance that captures a snapshot below its data counts as one that lost it. Then every cluster that is seeded
  starts from at least that revision, except exactly when it is restored from a provider's file that does not contain
  it. This needs no assumption about who seeds, and holds even for a second seeder. That capturing below one's data has
  to count as a loss is shown by a run: `Losses.UnreadableLosesCommitted`. The file provider can hand out a file that
  does not contain what its name says: `Snapshots.AnswerReachesExactly` says when (iff the copy of the file that Info
  finds was not finished; it need not have been renamed), `Snapshots.UnfinishedAnswer` gives the run, and
  `Losses.UnfinishedSeeds` what it does to the recovery.
* **Recovery decides** (`Liveness.SomebodySeeds`): four rounds of ticks contain a decision to seed. That is not yet a
  cluster; once restoring the seeder's own data has failed, no cluster is started in the rest of the epoch
  (`Durability.FailedRestoreEndsRecovery`).
* **An empty cluster** is started by the first seeder only if nobody publishes a snapshot and nobody was offered one
  (`FreshCluster.NobodyWasOfferedAny`); a provider that cannot be reached does not count as one without a snapshot
  (`FreshCluster.SeedsFromNothingExactly`).
* **Everybody returns** (`Healing.EverybodyReturns`): wherever the epoch ends, two undisturbed ticks of each operator that
  see a healthy cluster end with all instances running and publishing OK, in every interleaving.
* **Joining wipes nothing newer** (`Durability.JoinsWipeNothingNewer`) than what was restored, if no joining instance
  captured a snapshot older than its data, however often they try; `Losses.UnreadableJoiner` is the run in which one does.
* **`ForEachMember`** returns nil exactly when every client was created and every callback succeeded, in every schedule,
  although failing callbacks send twice (`FanOut.NilExactly`); no goroutine is left behind (`FanOut.NeverStuck`).
* **ACL reconciliation** is exact, idempotent, and restartable after a cut at any point (`AclReconcile`). It succeeds
  exactly for the configurations that `Deployable` describes: known modes, and neither root's name nor that of the
  account the operator acts as (`AclReconcile.SucceedsExactly`). A target that names this account locks the operator
  out for good (`AclReconcile.SelfLocksOut`).
* **The member cleaner** removes a member only if every time it was seen healthy in the whole run is at least the TTL
  ago (`Cleaner.RemovedOnlyWhenUnhealthy`); when it does is stated in terms of the run alone (`Cleaner.AttemptedExactly`).
* **The join lock** keeps an added member in the cluster until the process that added it unlocks, with late removals,
  lost answers, crashes and expiring leases (`JoinLock.AddedStays`, `JoinLock.ProtectedExactly`).
* **The snapshot store** holds what an error-free `Snapshot` promises, unless the call skipped for a file that is not,
  or no longer, a complete snapshot (`Snapshots.SnapshotCovers`, exact for the file it skipped for:
  `Snapshots.SkippedExactly`); `Snapshots.MisledRun` shows that an unfinished file is such a case.
* **File names** give back the revision exactly when the instance name has no `_` (`Metadata.RoundTripForEveryRevision`).

## What is assumed

* All operators see the same list of instances. Names are unique, and the list is as long as the cluster size. The
  addresses and the HTTP transport do not matter: a status request is answered or not.
* Reads of shared fields are sequentially consistent. The status handler reads the state before the revision, and other
  steps can come between the two.
* Foreign calls (etcd, the snapshot providers, the health probe, the file system, the clock) are parameters, or
  nondeterministic steps. The answers of the configured snapshot provider are arbitrary: nothing ties what a file
  contains to the revision in its name. A brand new etcd store has a revision that is not negative.
* What a file contains when it is captured is what is restored from it, or the restore fails. A temporary file can still
  grow after it was captured, which only adds to it, and can be renamed; its old path is then still handed out without
  an error (`pkg/providers/snapshot/file/file.go:114`), the data directory is removed (`pkg/etcd/server.go:186`), and the
  restore fails, so that the seeder has lost its own data, too. This is the outcome `restoreOk = false` of Restore. A
  copy that is not finished counts as one that contains nothing.
* When an epoch begins every instance is between two ticks, so that nobody holds half-collected statuses, and an
  instance in START is stopped and publishes no more than it has on disk if its snapshot is local. A panic ends the
  epoch of its process.
* Membership: etcd never hands out an id twice, and lists a member under the name with which it was started. The name of
  the lock determines the name of the instance.
* Temporary file names are not used twice. A directory is listed in one step.
* ACL: authentication is enabled, `root` exists as a role and as an account, deleting either is refused, granting
  `root` always works, and deleting a role takes it from all accounts. Every call is made as the account named by the
  common name of the operator's certificate, and is refused unless that account exists and has root. `clientv3.GetPrefixRangeEnd` is the parameter
  `end`. `strings.ToLower` is modelled on ASCII letters, which is enough because the three mode names are ASCII.

## Where the code and its documentation differ

* `docs/init-acl.md:36-41` describes permissions with a `rangeEnd`. `applyACLConfig` never reads it
  (`AclReconcile.RangeEndIgnored`).
* `docs/init-acl.md:6` says that the ACL is applied once. `pkg/operator/operator.go:207` reconciles it whenever the
  elected instance is healthy; the model follows the code.
* `pkg/etcd/server.go:165` looks as if a failed join were rolled back. The call waits for a lock that the same process
  still holds (`JoinLock.FailedJoinStays`).
* `Validate` checks neither permission modes nor the names `root` and that of the operator's own account
  (`AclReconcile.SucceedsExactly`).
* `Purge` looks at ages only and can remove the newest snapshot (`Snapshots.PurgeTakesNewest`).
* The last branch of the switch in `execute` is never taken (the body of `Operators.Operator.Execute`).

## Model

| member | source | states |
|---|---|---|
| Statuses.FetchStatuses | pkg/operator/misc.go:71-121 | nobody is elected only if nobody answered; the counts are those of the answers; we are the seeder iff we answered, no answer has a higher revision, and among those with ours no other name is above ours |
| Strings.LessExactly | pkg/operator/misc.go:104-109 | the order of names: a proper prefix is below what it begins, otherwise the first difference decides |
| Statuses.AnsweredExactly | pkg/operator/misc.go:83-101 | every answer is counted, as often as it came, and nothing else |
| Statuses.CountStates | pkg/operator/misc.go:111-118 | the map counts every state, 0 for one that does not occur |
| Statuses.CountIsNumber | pkg/operator/misc.go:111-118 | a count is the number of positions in that state |
| Statuses.LastOfSortIsTop | pkg/operator/misc.go:103-120 | however the answers arrived and were sorted, the last one is the unique lexicographic maximum of (revision, name) |
| Statuses.ElectionIgnoresArrival | pkg/operator/misc.go:83-120 | two operators with the same answers in different orders elect the same instance |
| Statuses.CountsAddUp | pkg/operator/misc.go:111-118 | the four state counts sum to the number of answers |
| Statuses.CountOfPermutation | pkg/operator/misc.go:83-118 | counting does not depend on the order of arrival |
| Operators.ChosenCoversDisk | pkg/etcd/server.go:243-272 | the snapshot chosen for a stopped server is as recent as its data iff the data is readable or the provider makes up for it, and is never older than the provider's |
| Operators.OlderSnapshotExactly | pkg/etcd/server.go:261-271 | an older snapshot than the local data is returned iff the data is unreadable and the provider only has an older one |
| Operators.FailedRestoreIsFinal | pkg/etcd/server.go:171-204 | once restoring the local snapshot has failed the data is gone, and no later attempt succeeds |
| RunningFlag.SnapshotInfoOnlyWhenStopped | pkg/etcd/server.go:243-272 | over the whole life of an operator SnapshotInfo is called only with the server stopped, whenever the error watcher strikes, and never dereferences nil |
| RunningFlag.StartsOnlyWhenStopped | pkg/operator/operator.go:134-198 | Seed and Join never meet a running server |
| RunningFlag.CallIsExecute | pkg/operator/operator.go:142-215 | undisturbed, the steps of a call are what Operator.Execute computes |
| Healing.TwoTicks | pkg/operator/operator.go:159-170 | once the cluster is seen as healthy and nothing goes wrong, an instance runs after one whole tick of its operator and publishes OK after two, in every interleaving |
| Healing.EverybodyReturns | pkg/operator/operator.go:100-170 | wherever an epoch of recovery ends, two such ticks of each operator end with everybody running, with data, and publishing OK |
| Operators.Server.SnapshotInfo | pkg/etcd/server.go:243-272 | of a stopped server: no snapshot iff there is no data and the provider answers that it has none; an error iff the provider gives nothing and the data is unreadable, or missing while the provider failed; the local one iff it is readable and not below the provider's; of a running server a nil dereference iff the provider has one |
| Operators.Server.Restore | pkg/etcd/server.go:171-204 | succeeds iff something is fetched and restored; the data directory is replaced only after the fetch, and is gone if restoring fails |
| Operators.Server.Seed | pkg/etcd/server.go:83-104 | succeeds iff fetching, restoring and starting do; nothing changes without a fetch, the data is gone if restoring fails, and what was restored stays if only the start fails |
| Operators.RetriesSucceedExactly | pkg/etcd/server.go:83-104 | repeated calls with the same local snapshot succeed iff one of them would and no restore failed before it; the data is lost only by a failing restore |
| Operators.Server.Join | pkg/etcd/server.go:106-169 | nothing changes if the members cannot be listed; a member with readable data whose rejoin succeeds runs with it; otherwise the old data is gone, and the server has that of the cluster iff it was added and started |
| Operators.Server.Stop | pkg/etcd/server.go:305-321 | stops, and keeps the data directory |
| Operators.Operator.Evaluate | pkg/operator/operator.go:116-140 | what is recorded in a tick, and what is left alone without one; it crashes iff nobody answered |
| Operators.Operator.Execute | pkg/operator/operator.go:142-215 | healthy and stopped: joins, and runs iff that succeeds; healthy and running: publishes OK; unhealthy and running: stops iff at most half of the cluster publishes OK; unhealthy and stopped: publishes START iff it gets to know a snapshot or that there is none, and seeds iff all publish START and it is elected |
| Recovery.NodeStep | pkg/operator/operator.go:134-198 | every step keeps what concerns one instance: a reading "stopped" stays true, capturing and seeding happen only when stopped |
| Recovery.CapturesOnlyWhenStopped | pkg/etcd/server.go:243-272 | the same within an epoch of the protocol |
| Recovery.FrozenStays | pkg/operator/operator.go:182-190 | a stopped instance that publishes START keeps its state, snapshot and data until it decides to seed |
| Recovery.SeedsMeans | pkg/operator/operator.go:192-198 | a decision to seed rests on a START answer from every instance and on being above all of them |
| Recovery.SeedViewIsCurrent | pkg/operator/operator.go:182-198 | at the first decision everybody is in START and publishes exactly what the seeder has read |
| Recovery.OnlyWinnerSeeds | pkg/operator/operator.go:192-198 | afterwards no other instance can decide to seed, however stale its readings |
| Recovery.StepInv | pkg/operator/operator.go:100-198 | every step of every operator keeps the invariant of the protocol |
| Recovery.AtMostOneSeeder | pkg/operator/operator.go:182-198 | any two decisions to seed in one epoch are made by the same instance if whatever the seeder captures again is above what everybody else publishes |
| Recovery.CoveringStaysAhead | pkg/etcd/server.go:243-272 | a seeder whose recaptured snapshots cover its database, and whose restored files reach their labels, stays ahead |
| Recovery.OneCoveringSeeder | pkg/operator/operator.go:182-198 | so it is the only seeder of the epoch |
| Recapture.RecaptureExactly | pkg/operator/operator.go:182-198 | after a recapture some other instance can come to seed, without another capture by the seeder, iff the recaptured revision is not above all the others |
| Recapture.BehindIsOvertaken | pkg/operator/operator.go:182-198 | every run that ends with a recapture not above all the others, hard failures included, can be continued to a decision by another instance |
| SecondSeeder.TwoSeeders | pkg/etcd/server.go:265-271 | a whole run in which a second instance seeds from a lower revision, for all names and revisions |
| Traces.SeedsExactly | pkg/operator/operator.go:192-198 | with everybody waiting, the next undisturbed tick of an instance decides to seed iff it publishes more than all the others |
| Traces.OvertakenExactly | pkg/operator/operator.go:182-198 | with everybody waiting, the next tick of some other instance decides to seed iff the seeder no longer publishes more than all the others |
| Durability.FetchMatchesView | pkg/operator/misc.go:103-120 | fetchStatuses on the answers of a view, in any order, leads to the decision the protocol makes on the view |
| Durability.ExecuteIsSteps | pkg/operator/operator.go:142-215 | one call of execute is a sequence of protocol steps that ends in the same instance and changes no other |
| Durability.DecisionCovers | pkg/operator/operator.go:192-198 | whoever decides to seed publishes at least what every survivor publishes |
| Durability.HeldIsPublished | pkg/operator/operator.go:182-190 | an instance that held a revision at any time before the first decision to seed, and never captured below its data, still has it in what it publishes |
| Durability.SurvivorIsCovered | pkg/operator/operator.go:172-198 | with an instance that did not let go of a revision it held at some step before the first decision (a hard failure of SnapshotInfo while nobody counts on it is allowed), a seeded cluster has that revision, except exactly when it is restored from a file that does not contain it |
| Durability.NeverStartedUnseen | pkg/operator/operator.go:182-190 | nobody counts on an instance that has never been in START |
| Durability.NoCommittedRevisionLost | pkg/operator/operator.go:172-198 | a revision that a majority held, each at some step before the first decision, and that fewer than a majority lost or captured below, is kept by every seeded cluster, except exactly when it is restored from a file that does not contain it |
| Durability.PublishedIsRestored | pkg/operator/operator.go:217-224 | a cluster whose snapshot reaches its label has every revision that somebody publishes when it is started, and no other if the snapshot contains no more than its label |
| Durability.RestoredIsHighest | pkg/etcd/server.go:83-104 | whoever starts a cluster is the one seeder, everybody else is still waiting, and a snapshot that reaches its label is at least every published revision |
| Durability.JoinsWipeNothingNewer | pkg/etcd/server.go:137-152 | no data directory removed by joining instances, however often each of them calls Join, held more than the restored revision, if they never captured a snapshot older than their data; those already waiting when the epoch began published all they had |
| Durability.FailedRestoreEndsRecovery | pkg/etcd/server.go:83-104 | after a failed restore of the seeder's own data no cluster is started in the epoch |
| FreshCluster.SeedsFromNothingExactly | pkg/etcd/server.go:261-267 | whoever decides to seed has no snapshot iff at its last capture it had no data and the provider answered that it has none |
| FreshCluster.NothingNewerWasOffered | pkg/operator/operator.go:182-198 | at the first decision to seed no instance had been offered, at its last capture, anything newer than what the seeder publishes |
| FreshCluster.NobodyWasOfferedAny | pkg/etcd/server.go:83-94 | the first seeder starts an empty cluster only if nobody publishes a positive revision, and no instance that has captured in the epoch had readable data, or was offered a file, of a positive revision |
| Losses.UnfinishedSeeds | pkg/etcd/server.go:265-271 | a run in which all others survive and the new cluster starts from a lower revision, because the file it is restored from is unfinished |
| Losses.UnreadableJoiner | pkg/etcd/server.go:137-152 | a run in which newer data is wiped, because the joining instance could not read it and published an older snapshot |
| Losses.UnreadableLosesCommitted | pkg/etcd/server.go:265-271 | in that run a revision on a majority is lost, although only one instance has lost it and the other keeps it on disk |
| Liveness.QuietStep | pkg/operator/operator.go:149-190 | until somebody seeds no instance returns to OK, starts again or leaves START |
| Liveness.ThreeRounds | pkg/operator/operator.go:172-190 | after three rounds everybody is stopped and publishes START |
| Liveness.TopSeeds | pkg/operator/operator.go:192-198 | with everybody in START, the next tick of the highest instance decides to seed |
| Liveness.SomebodySeeds | pkg/operator/operator.go:100-198 | four rounds of ticks, interleaved in any way, contain a decision to seed |
| FanOut.ReachInv | pkg/etcd/client.go:100-116 | in every schedule the messages of each goroutine are exactly those that its outcome and progress call for |
| FanOut.SentExactly | pkg/etcd/client.go:99-116 | a goroutine that has ended has sent an error, an error and an empty string, or an empty string, as its outcome calls for; the channel never holds more than N messages |
| FanOut.NilExactly | pkg/etcd/client.go:94-129 | the result is nil iff every client was created and every callback succeeded; a nil result means that all have ended; reported errors are real |
| FanOut.AtMostTwicePerMember | pkg/etcd/client.go:100-116 | at most 2N messages are sent, and 2N only by goroutines that are all done |
| FanOut.NeverStuck | pkg/etcd/client.go:100-128 | a schedule that cannot continue has returned and has ended every goroutine |
| FanOut.SchedulesAreShort | pkg/etcd/client.go:100-128 | every schedule has at most five steps for each member |
| FanOut.Aggregate | pkg/etcd/client.go:118-128 | one entry for each error among the messages taken, from its sender and in order; none iff there is none |
| Consistency.GetSameValue | pkg/etcd/misc.go:180-191 | accepts exactly the iterations that are zeros followed by one non-zero value |
| Consistency.ExactWithoutZero | pkg/etcd/misc.go:180-191 | without a zero, accepted iff all values are equal |
| Consistency.SomeOrderAccepts | pkg/etcd/misc.go:180-191 | some iteration order is accepted iff the non-zero values agree |
| Consistency.EveryOrderAccepts | pkg/etcd/misc.go:180-191 | every iteration order is accepted iff all values agree |
| Consistency.GetRevisionsHashes | pkg/etcd/client.go:250-280 | no error iff every member reported; the maps hold what the last member of each name reported and nothing else |
| Consistency.GetHighestRevision | pkg/etcd/client.go:215-229 | -1 iff some member failed, otherwise the maximum over the last reports of each name, at least 0 |
| Consistency.PassedIsAgreement | pkg/etcd/client.go:238-245 | a poll that passes without zeros is an agreement of the last members of each name on revision and hash |
| Consistency.UniqueNamesAgree | pkg/etcd/client.go:274-275 | with unique names that is the agreement of all members |
| Consistency.OneNameHides | pkg/etcd/client.go:274-275 | members of one name hide each other, whatever they report |
| Consistency.AgreementPasses | pkg/etcd/client.go:238-245 | an agreement passes in every iteration order |
| Consistency.IsConsistent | pkg/etcd/client.go:231-248 | the first poll that passes: no agreement is passed over, and what passes is one unless a zero was reported; of all members if names are unique |
| Acl.RolesError | pkg/etcd/validate.go:29-51 | there is a first error in the roles iff not all of them are well-formed and unique |
| Acl.UsersError | pkg/etcd/validate.go:53-68 | there is a first error in the users iff not all of them are well-formed, unique, and use known roles or root |
| Acl.FirstRoleFault | pkg/etcd/validate.go:29-51 | the error in the roles is what is wrong with the first role that has one, checked in the order of the code |
| Acl.FirstUserFault | pkg/etcd/validate.go:53-68 | the same for the users |
| Acl.ValidateRoles | pkg/etcd/validate.go:27-51 | returns the first error in the roles; without one, all their names are collected |
| Acl.ValidateUsers | pkg/etcd/validate.go:53-68 | returns the first error in the users |
| Acl.Validate | pkg/etcd/validate.go:21-72 | accepts no ACL, or one under client certificates with names, permissions, modes and keys, known roles and unique names; otherwise the error says what is wrong with the first role or user that has one |
| AclReconcile.RemoveRun | pkg/operator/acl.go:115-137 | removal leaves exactly what is outside the configuration, less its roles, and no recorded configuration |
| AclReconcile.ApplyRun | pkg/operator/acl.go:39-113 | application replaces exactly the roles and users of the configuration and records it |
| AclReconcile.ReconcileExact | pkg/operator/acl.go:148-165 | a complete reconciliation succeeds and ends in the store that is wanted |
| AclReconcile.FinalEntries | pkg/operator/acl.go:39-137 | that store entry by entry: the target's roles with exactly the grants that their permissions spell, its users with their passwords and roles; nothing else of the old configuration; outsiders lose only deleted roles |
| AclReconcile.LastGrantWins | pkg/operator/acl.go:52-75 | a role has a grant for exactly the key ranges of its permissions, with the mode that the last permission for the range spells |
| AclReconcile.ModeIsSpelled | pkg/operator/acl.go:60-69 | which words, in letters of either case, mean which mode |
| AclReconcile.ConfigApplied | pkg/operator/acl.go:39-113 | a configuration that is applied without an error is in the store as it is configured |
| AclReconcile.SucceedsExactly | pkg/operator/acl.go:39-113 | a validated configuration is applied without error iff its modes are known and it uses neither root's name nor that of the operator's account |
| AclReconcile.SelfLocksOut | pkg/operator/acl.go:85-93 | a target that names the operator's account deletes it and fails, and no later reconciliation can do anything |
| AclReconcile.CutAfterOwnAccount | pkg/operator/acl.go:176-191 | a cut right after the operator's account was deleted is not repaired by running again |
| AclReconcile.Restartable | pkg/operator/acl.go:148-165 | cut after any number of operations, a rerun with the same target reaches the store of an uninterrupted run |
| AclReconcile.CutSomewhere | pkg/operator/acl.go:39-137 | wherever it is cut, the recorded configuration is still one from which the wanted store is reached |
| AclReconcile.ReapplyChangesNothing | pkg/operator/acl.go:154-165 | a second run makes no change, and applying once more would change nothing |
| AclReconcile.OtherTargetExactly | pkg/operator/acl.go:148-165 | a rerun with another target repairs a cut iff the cut run has changed nothing outside what that target names |
| AclReconcile.OtherTargetRepairs | pkg/operator/acl.go:39-113 | for a first target with new names, wherever it is cut before it is recorded: iff the other target names everything that was created |
| AclReconcile.OtherTargetLeavesOrphan | pkg/operator/acl.go:42-50 | with another target after a cut, a role that was already created is left behind |
| AclReconcile.RangeEndIgnored | pkg/operator/acl.go:52-71 | the operations that are sent are the same without the configured range ends, up to the recorded configuration |
| AclClient.CallsAreCut | pkg/operator/acl.go:39-137 | running out at any mutation leaves the store after a prefix of the operations |
| AclClient.Client.ApplyRole | pkg/operator/acl.go:41-76 | the calls for one role with their early returns; without an error the role has exactly the grants that its permissions spell |
| AclClient.Client.ApplyUser | pkg/operator/acl.go:78-101 | the same for one user; without an error the account has no password iff none is configured, that password otherwise, and exactly the configured roles |
| AclClient.Client.ApplyACLConfig | pkg/operator/acl.go:39-113 | roles, then users, then the recorded configuration last; without an error all are in the store as configured |
| AclClient.Client.RemoveACLConfig | pkg/operator/acl.go:115-137 | users, then roles, then the recorded configuration last, tolerating what is missing |
| AclClient.Client.Reconcile | pkg/operator/acl.go:139-168 | on success the store that is wanted, with everything as configured; otherwise one from which another call gets there; nothing without the operator's account |
| Cleaner.MemberCleaner.ObserveAll | pkg/etcd/server.go:427-444 | the tracking map after a listing, health probes included |
| Cleaner.MemberCleaner.SweepAll | pkg/etcd/server.go:446-471 | whatever the iteration order: which due members are asked to be removed, under which name; a due member is dropped iff it was removed or is already gone |
| Cleaner.MemberCleaner.Turn | pkg/etcd/server.go:421-472 | one turn of the loop |
| Cleaner.TrackedWasStarted | pkg/etcd/server.go:428-435 | every tracked id was listed as started in this turn or an earlier one, and is tracked since |
| Cleaner.RecordIsHistory | pkg/etcd/server.go:432-443 | a record is the name and time of the first listing and the time of the latest healthy probe since |
| Cleaner.AttemptedExactly | pkg/etcd/server.go:447-454 | when a tracked member is due, in terms of what was observed: the start timeout if it was never healthy, the TTL otherwise |
| Cleaner.RemovedOnlyWhenUnhealthy | pkg/etcd/server.go:446-462 | at every removal all healthy probes of the whole run are at least the TTL ago |
| Cleaner.HealthyStays | pkg/etcd/server.go:446-462 | a member seen healthy less than the TTL before each sweep is never removed |
| Cleaner.ForgottenExactly | pkg/etcd/server.go:446-470 | an id that is not listed leaves the map exactly at the first sweep that finds it due and whose removal succeeds |
| JoinLock.StepInv | pkg/etcd/client.go:131-189 | every step keeps it: protected ids are members, and nobody is removing them |
| JoinLock.AddedStays | pkg/etcd/client.go:131-164 | in every interleaving a member stays from its addition until its process gives up the lock |
| JoinLock.ProtectedExactly | pkg/etcd/client.go:131-189 | the protection of an added member ends exactly when its process gives up the lock |
| JoinLock.FailedJoinStays | pkg/etcd/server.go:155-168 | the clean-up of a failed join never gets the lock, and the member stays |
| JoinLock.Client.AddMember | pkg/etcd/client.go:131-147 | lock, then add; the lock is kept iff a member was added, and otherwise nothing changed |
| JoinLock.Client.RemoveMember | pkg/etcd/client.go:149-164 | no error means that the id is not a member, also when it was not one before; the lock is released |
| JoinLock.Client.JoinAsNew | pkg/etcd/server.go:154-168 | after an addition the member stays, with its name only if the server has started; the lock is released |
| Metadata.SixteenDigits | pkg/providers/snapshot/metadata.go:51-53 | every revision from 0 to 2^63-1 is printed with exactly 16 digits that spell it |
| Metadata.FormatParse | pkg/providers/snapshot/metadata.go:35-53 | what is printed for a revision is parsed back, for every int64 |
| Metadata.ParsedExactly | pkg/providers/snapshot/metadata.go:38 | which strings are read as which revision: hexadecimal digits with or without a sign, if the number fits into 64 bits |
| Metadata.DigitInEitherCase | pkg/providers/snapshot/metadata.go:38 | digits are read in either case |
| Metadata.GivenRevisionKept | pkg/providers/snapshot/metadata.go:35-48 | a revision that is given is kept, whatever the name is; only the sign of a negative one matters |
| Metadata.RoundTrip | pkg/providers/snapshot/metadata.go:35-53 | a file name gives back the revision iff the instance name has no separator, or its second piece spells the revision |
| Metadata.RoundTripForEveryRevision | pkg/providers/snapshot/metadata.go:35-53 | an instance name is safe for all revisions iff it has no separator |
| Metadata.UnderscoreBreaksRoundTrip | pkg/providers/snapshot/metadata.go:38 | a name for which every revision is read as 11 |
| Metadata.FilenameInjective | pkg/providers/snapshot/metadata.go:51-53 | different instances or revisions have different file names |
| Metadata.FilenameOrder | pkg/providers/snapshot/metadata.go:51-63 | for one instance the order of file names is the order of revisions |
| FileStore.FileProvider.Info | pkg/providers/snapshot/file/file.go:87-112 | some file with the highest revision; none iff no file counts; panics iff some name has no separator |
| FileStore.FileProvider.Save | pkg/providers/snapshot/file/file.go:60-85 | adds the complete file, or on any error leaves the directory as it was |
| FileStore.FileProvider.Purge | pkg/providers/snapshot/file/file.go:118-131 | removes exactly what is strictly older than the TTL, except directories with something in them |
| FileStore.Snapshotter.Snapshot | pkg/etcd/server.go:206-241 | skips iff a file with at least the current revision counts; otherwise, also when the listing fails, saves iff copying and renaming succeed, and else changes nothing |
| FileStore.TempLabel | pkg/providers/snapshot/file/file.go:61 | a temporary file is listed with the revision of the snapshot it is going to be |
| Snapshots.LabelsAreReached | pkg/etcd/server.go:274-298 | in every run the label of a complete snapshot is at most the revision that it contains |
| Snapshots.CompleteStays | pkg/providers/snapshot/file/file.go:60-85 | complete snapshots stay until a purge removes them, so saving never lowers the highest one |
| Snapshots.RemovedWasExpired | pkg/providers/snapshot/file/file.go:118-131 | a purge removes only names that it found expired |
| Snapshots.StoredExactly | pkg/providers/snapshot/file/file.go:60-131 | a file is a complete snapshot iff it was one or has been saved, and has not been removed since |
| Snapshots.SkippedExactly | pkg/etcd/server.go:213-227 | the file a call skips for is a complete snapshot iff the call was not misled |
| Snapshots.SnapshotCovers | pkg/etcd/server.go:206-241 | after a call without an error a complete snapshot of the revision read is stored, unless it skipped and was misled |
| Snapshots.AnswerReachesExactly | pkg/providers/snapshot/file/file.go:60-112 | from a finished store on, what Info answers contains what its label says iff the copy of the file found was finished, renamed or not |
| Snapshots.UnfinishedAnswer | pkg/providers/snapshot/file/file.go:61-71 | a member that dies before its copy is finished leaves a file that others are offered and that contains nothing |
| Snapshots.UnrenamedAnswer | pkg/providers/snapshot/file/file.go:66-77 | one that dies between the end of the copy and the rename leaves a file that reaches its label |
| Snapshots.SavesAreNew | pkg/etcd/server.go:212-236 | what a call saves is above everything complete that its listing saw |
| Snapshots.EmptyStoreIsFilled | pkg/etcd/server.go:213-223 | when no file counts, as after a purge of everything, the next call does not skip |
| Snapshots.TempFileMisleads | pkg/providers/snapshot/file/file.go:61-71 | a member that sees only the unfinished file of another skips, and if the copy then fails nothing is stored |
| Snapshots.MisledRun | pkg/etcd/server.go:213-227 | a whole run of this kind, for all names and revisions |
| Snapshots.PurgeTakesNewest | pkg/providers/snapshot/file/file.go:124-129 | a purge empties the directory iff everything in it is old, and looks at nothing but the age |
| Snapshots.SkipsExactly | pkg/etcd/server.go:212-227 | after its listing a call of a member skips iff a file with at least its revision counts |
| Snapshots.SaveIsSteps | pkg/providers/snapshot/file/file.go:60-85 | undisturbed, creating, copying and renaming amount to Save |

## Left out

- Durability.JoinsWipeNothingNewer: one direction; an instance that published less than its data may still be covered by what was restored.
- Snapshots.SnapshotCovers: one direction; a call that was misled by the file it skipped for may still be covered by another one.
- AclClient.Client.RoleGet: does not lose its answer; when the code loses it, the following addition fails on an existing role, which is a cut before the deletion.
- AclClient.Client.UserGet: as for RoleGet.
- Operators.Server.Stop: does not take the snapshot that precedes a stop; `Snapshots` describes it.
- `enableACL` and reading the certificate's common name: assumed to have completed. It cannot be repeated after a cut, because it returns early once the common name has the role root, which can be before authentication is enabled.
- Writing the recorded ACL configuration to YAML and reading it back is taken as the identity.
- `startServer`: building the etcd configuration; its panics end the process.
- Raft, the embedded etcd server and leases are a revision, a membership, and a lock that can expire.
- AWS, Kubernetes and Docker providers, S3, TLS, HTTP, JSON, logging, metrics, the command line, the tester, Terraform and Helm.
- The S3 snapshot provider repeats the algorithm of the file provider.
- URL and address helpers, `initialCluster`, `instancesAddresses`, `serverConfig`: easy members.
- File modes, and errors of removing a file that are ignored by the code.
