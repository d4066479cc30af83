# Bazilion: a verified model of home ownership, message cascades and interchange

Bazilion keeps everything an installation owns in one home directory. A daemon serves it, a CLI backs
it up, restores it and uninstalls it, and agents exchange messages under a policy. This project models
the parts of that system where a mistake loses a home, lets a command run that nobody allowed, or keeps
agents talking for ever, and proves what they promise.

- **Ownership and restore.** `OwnershipRecord`, `OwnershipProtocol`, `OwnershipProgress`, `HomeSwap` and
  `HomeOwnership`: any number of daemons, restores and uninstalls compete for one sibling record; the
  winner may replace the whole home while the record's phase serves as a write-ahead log. The protocol is a machine of
  single file-system calls (the two halves of one read included), with crashes between any two of them
  and arbitrary reuse of inode numbers. The swap is a class over a disk whose every rename, sync and
  record write may fail; each primitive leaves a snapshot of what a crash and what a loss of power would
  find. `HomeOwnership` puts the two together, and lets the power fail at any moment. `OwnershipProgress`
  says what is achieved: when an owner leaves, and that whoever comes alone gets the home.
- **Coordination.** `ShellApprovals`, `TurnRegistry`, `LifecycleLease`, `SnapshotLock`: each a class whose
  methods are proved against a specification of events, with the claims proved over every run of events.
- **Messages and schedules.** `MessageCausality`, `MessageCascades`, `Descent`, `EndlessReplies` and
  `SchedulerClaims`: the hop limit, exactly when it makes cascades end, and what the fence around
  scheduled occurrences guarantees.
- **Archives and documents.** `ArchiveShape`, `ArchiveExtraction`, `LinkResolution`, `EscapingLinks`,
  `BackupArchive`, `TeamInterchange`, `QueueRecovery`, `NdjsonStream`, `LineReader`, `InboxIdentity`, over
  `Text` and `Json`.

Assumed throughout: exclusive create, `mkdir` and `rename` are atomic; instance and approval ids are
fresh; a dead process stays dead; a torn record does not parse; the name of a claim directory is
injective in what is hashed into it. What one policy decision says is a parameter. One sync of the
target's parent makes both ends of a rename durable: the staging directory, where the other end is, is
never synced itself. A loss of power keeps a path entry that a directory sync has followed, and what
one loss has left on the disk the next one finds there.

Where the code does not do what one might expect of it, the model follows the code:

- A message's hop follows the message it replies to, and a turn may reply to any stored message. Two
  agents that keep replying to the same old message never reach the limit. Where turns may reply to
  messages up to d hops shallower than the lowest they know, cascades are sure to end exactly when d is
  zero or the limit is (`EndlessReplies.CascadesAlwaysEndExactlyWhen`).
- An import may give two slots one name, which the daemon then refuses: exactly when a key without a
  slot in the template is the slot id that another key maps to (`TeamInterchange.NamesDistinctExactlyWhen`).
- An audit callback that throws while a request settles leaves the request neither pending nor decided,
  for good, and one that throws during a cancellation leaves the requests behind it waiting: every
  request that ends is decided, and a cancellation fails closed, exactly when no audit throws
  (`ShellApprovals.DecidedExactlyOnce`, `LostForEver`, `CancelAllFailsClosed`).
- A record left in `swapping` names a staging place that may have been removed; when a blocking record's
  path does hold the old home is part of what `HomeSwap.HomeDisk.SwapAndClean` promises.
- The link check does not see that a target may lead through another link. A home with `d/l` leading to
  `..` and `x` to `d/l/..` has a backup that is accepted and unpacks to a tree where `x` leads above the
  root. Where relative targets go up at most d times after the first link they pass, accepted archives
  are sure to lead nowhere above the root exactly when d is zero
  (`EscapingLinks.AcceptedStaysBelowExactlyWhen`).
- The document parser checks the text of an endpoint kind, so an array of one kind passes as a kind
  (`TeamInterchange.ArrayKindAccepted`); kinds are proper exactly when the document holds them as text.
- A file with two names in a home is archived as a hard link the second time, which a restore refuses:
  such a home's backup cannot be restored (`BackupArchive.AcceptedExactlyWhenRestorable`).
- An occurrence held for approval is never run by a call that is not materialized, since holding it
  moves the mark (`SchedulerClaims.HeldNeedsMaterialized`).
- A normalized archive path may start like a drive, as `./c:/x` does, and would not pass a second time
  (`ArchiveShape.NormalizeTwice`).
- A record that publishes no host, or a port outside 1..65535, is one no reader accepts
  (`OwnershipRecord.WrittenRecordIsReadBack`).
- A claim directory whose maker crashed blocks every later reclaim of that record, and an uninstall's
  own retry leaves the path free for a moment (`OwnershipProtocol`).

`dafny verify dfyconfig.toml` checks the whole project.

## Model

| member | source | states |
|---|---|---|
| OwnershipRecord.ReadExisting | apps/daemon/src/lib/daemon-liveness.ts:101-203 | The daemon's field-by-field reader finds a record usable exactly when the CLI's reader parses it, and reads the same record out of it. |
| OwnershipRecord.ReadExactlyWhen | apps/daemon/src/lib/daemon-liveness.ts:101-203 | A file is read as a record exactly when it says so in every field, with a phase that goes with its owner, an endpoint if it listens, and a recovery path if something is to be recovered. |
| OwnershipRecord.WrittenRecordIsReadBack | apps/cli/src/daemon-liveness.ts:350-429 | Every record a daemon, restore or uninstall writes is read back as itself by both readers, except an endpoint without a host or with a port outside 1..65535, which no reader accepts. |
| OwnershipRecord.ReclaimExactlyWhen | apps/cli/src/daemon-liveness.ts:275-336 | A contender reclaims exactly a readable record of a dead process in no blocking phase; an interrupted uninstall yields to an uninstall only. |
| OwnershipProtocol.StepKeepsInv | apps/cli/src/daemon-liveness.ts:220-449 | Every step of every process, crashes and failing calls included, keeps the protocol's invariant: a live owner's file is the one at the path, and whoever passed the decision saw the record of a dead process. |
| OwnershipProtocol.RunKeepsInv | apps/cli/src/daemon-liveness.ts:247-449 | The invariant holds in every state of every run. |
| OwnershipProtocol.MutualExclusion | apps/cli/src/daemon-liveness.ts:247-345 | At any moment at most one live process owns the home, and its file is the one at the path. |
| OwnershipProtocol.ReclaimMovesWhatItVetted | apps/daemon/src/lib/daemon-liveness.ts:215-247 | A reclaiming rename moves the very record, on the very inode, that was vetted as a dead process's, whatever happened in between. |
| OwnershipProtocol.HowARecordLeaves | apps/cli/src/daemon-liveness.ts:234-244 | A record leaves the path in two ways only: its own live owner removes it, or a contender renames away a readable, reclaimable record of a dead process. |
| OwnershipProtocol.OnlyTheOwnerWrites | apps/cli/src/daemon-liveness.ts:406-429 | No step changes the content of a record but one of its own live creator. |
| OwnershipProtocol.BlockedRecordsStay | apps/daemon/src/lib/daemon-liveness.ts:290-333 | Once its writer is dead, a record that is `swapping`, `recovery-required` or unparsable stays at the path, unchanged, for the rest of every run. |
| OwnershipProtocol.InterruptedUninstallYieldsToUninstall | apps/cli/src/daemon-liveness.ts:293-309 | A dead uninstall's record is moved by another uninstall and by nothing else. |
| OwnershipProtocol.RetryLeavesThePathFree | apps/cli/src/daemon-liveness.ts:236-270 | Between an uninstall's reclaiming rename and its next create the path is free: a daemon that opens there first gets it. |
| OwnershipProtocol.AbandonedClaimBlocksForEver | apps/cli/src/daemon-liveness.ts:226-237 | A claim directory whose maker is gone keeps the dead record where it is for the rest of every run. |
| OwnershipProgress.ReleaseUnlinksExactlyWhen | apps/cli/src/daemon-liveness.ts:437-448 | A release moves nothing by itself; the record is then unlinked exactly if a daemon holds it, a restore with nothing half done, or an uninstall that is complete, and is otherwise never touched by its owner again. |
| OwnershipProgress.UnlinkFreesThePath | apps/cli/src/daemon-liveness.ts:448 | An owner's unlink frees the path exactly when it succeeds. |
| OwnershipProgress.CompletionLetsLeave | apps/cli/src/daemon-liveness.ts:430-436 | Marking an uninstall complete lets it give its record up, and changes nothing else. |
| OwnershipProgress.UninstallLeavesOnlyComplete | apps/cli/src/commands/uninstall.ts:356-366 | Once an uninstall holds the home, it removes its own record only after it has been marked complete. |
| OwnershipProgress.UnfinishedUninstallStays | apps/cli/src/commands/uninstall.ts:356-366 | Until then its record leaves the path only for another uninstall, after it has died. |
| OwnershipProgress.FreePathIsTaken | apps/cli/src/daemon-liveness.ts:264-368 | A contender that finds the path free, and none of whose calls fails, holds the home with its own first record at the path, and has removed its claim. |
| OwnershipProgress.RefusedExactlyWhen | apps/cli/src/daemon-liveness.ts:272-336 | A contender stops before a record exactly when its owner answers, when it blocks or does not parse, or when it is an uninstall's and the contender is none. |
| OwnershipProgress.VettedRecordIsMoved | apps/cli/src/daemon-liveness.ts:220-245 | A record decided upon and claimed by nobody is claimed, read again and renamed away, and the contender starts over. |
| OwnershipProgress.LoneContenderTakesOver | apps/cli/src/daemon-liveness.ts:247-368 | Alone, and with no call failing, a contender takes the home over from a dead process whose record it may reclaim, and leaves no claim. |
| OwnershipProgress.EightAttempts | apps/cli/src/daemon-liveness.ts:264-264 | In no run does anyone go round the loop more than eight times. |
| HomeSwap.SwappingIsDurableBeforeTheFirstMove | apps/cli/src/commands/backup.ts:694-704 | Before any snapshot in which the target has moved there is one in which `swapping` was durable over the untouched, durable layout. |
| HomeSwap.PowerLossAtAnyPoint | apps/cli/src/commands/backup.ts:694-778 | After a loss of power at any point: a record that does not block means exactly the old or exactly the new home at the target, and the old home is at the target, in staging, or durably replaced. |
| HomeSwap.NewHomeStays | apps/cli/src/commands/backup.ts:760-778 | Once the new home is at the target nothing moves it again. |
| HomeSwap.TraceAtAnyPoint | apps/cli/src/commands/backup.ts:654-779 | What other processes may rely on at every moment of a swap: the home settled, or the target empty behind a blocking record with the old home in staging. |
| HomeSwap.HomeDisk.WriteRecord | apps/cli/src/daemon-liveness.ts:201-206 | Truncate, write, sync, each of which may fail: the text is then the old one, none or the new one, and on success the new one is durable. |
| HomeSwap.HomeDisk.MarkSwapping | apps/cli/src/daemon-liveness.ts:408-415 | Success means `swapping` is durable while the target has not moved. |
| HomeSwap.HomeDisk.Mark | apps/cli/src/daemon-liveness.ts:416-429 | A phase is marked only while the path is still ours; the copy in memory and the text change in that order. |
| HomeSwap.HomeDisk.Rename | apps/cli/src/commands/backup.ts:662-704 | A rename is atomic, may fail, and until the next directory sync may be undone by a loss of power. |
| HomeSwap.HomeDisk.SyncDirectory | apps/cli/src/commands/backup.ts:705-710 | After a successful sync of the target's parent only the present layout can be found after a loss of power, provided that this one sync makes both ends of a rename durable. |
| HomeSwap.HomeDisk.RecoveryError | apps/cli/src/commands/backup.ts:673-692 | The mark of `recovery-required` may itself fail; the layout is untouched, the outcome names the recovery data either way, and the handle's recovery path is what a written mark names. |
| HomeSwap.HomeDisk.MoveAside | apps/cli/src/commands/backup.ts:696-717 | The old home moves to staging durably when none of its calls fails; otherwise the swap stops with it still safe, failed or to be recovered as the failing call decides. |
| HomeSwap.HomeDisk.RollBack | apps/cli/src/commands/backup.ts:721-757 | A failed install puts the old home back and marks it safe when none of its calls fails, or stops with recovery needed. |
| HomeSwap.HomeDisk.Confirm | apps/cli/src/commands/backup.ts:760-778 | The new home is made durable and marked installed exactly when none of its calls fails; otherwise recovery is needed. |
| HomeSwap.DoneExactlyWhen | apps/cli/src/commands/backup.ts:694-778 | The new home is installed and marked exactly when none of the calls of the swap fails. |
| HomeSwap.FirstFailureDecides | apps/cli/src/commands/backup.ts:694-778 | Which failing call ends a swap how: up to the first move a plain failure, after it recovery, and a failing second move whatever the roll-back comes to. |
| HomeSwap.HomeDisk.MakeRoom | apps/cli/src/commands/backup.ts:694-717 | The announcement and the first move, each failure of which ends the swap as stated. |
| HomeSwap.HomeDisk.MoveIn | apps/cli/src/commands/backup.ts:718-778 | The second move: confirmed, rolled back, or given up, as its failures and those after it decide. |
| HomeSwap.HomeDisk.MarkDurable | apps/cli/src/commands/backup.ts:736-778 | What is at the target is synced and then marked installed, exactly if neither fails. |
| HomeSwap.HomeDisk.InstallValidatedPayload | apps/cli/src/commands/backup.ts:654-779 | Whatever rename, sync or marker fails, every snapshot on the way is safe; the outcome, and the phase a failure leaves, is the one the failing calls determine, and is success when none fails. |
| HomeSwap.HomeDisk.RemoveStaging | apps/cli/src/commands/backup.ts:983-993 | Removing staging never removes the only copy of the old home. |
| HomeSwap.HomeDisk.SwapAndClean | apps/cli/src/commands/backup.ts:975-994 | Install and clean-up together leave a trace that is safe at every point, with the record in place throughout; a record that still blocks names the place of the old home exactly when recovery was called for and the mark was written or need not have been. |
| HomeSwap.HomeDisk.Release | apps/cli/src/daemon-liveness.ts:437-448 | The record is removed exactly when the path is still owned, the phase in memory does not block and the removal succeeds; the home is then settled. |
| HomeSwap.HomeDisk.RestoreHome | apps/cli/src/commands/backup.ts:974-997 | A whole restore, or a bootstrap rotation, ends as the failing calls decide, with the home settled or with the record left; when none fails, with the new home installed and the record gone. |
| HomeOwnership.EventKeepsInv | apps/cli/src/commands/backup.ts:974-997 | Ownership steps and swap steps of any number of processes and losses of power, interleaved anyhow, keep the joint invariant. |
| HomeOwnership.AdvanceIsPossible | apps/cli/src/commands/backup.ts:654-779 | A live restore can always take its next swap step: the record at the path is its own. |
| HomeOwnership.PowerLossIsPossible | apps/cli/src/commands/backup.ts:654-779 | Whatever text and layout of the swap at the path are durable, a loss of power may leave just these. |
| HomeOwnership.PowerLossDuringASwap | apps/cli/src/commands/backup.ts:694-778 | A loss of power during a swap leaves the old or the new home firmly at the target, or the target empty and the old home in staging behind a blocking record; it changes nothing there once the record does not block. |
| HomeOwnership.HowAHomeLeaves | apps/cli/src/commands/backup.ts:694-778 | A home leaves the target only into staging behind a blocking record, for the new home then in place, or by a loss of power that takes back a new home whose record still blocks and leaves the one before it. |
| HomeOwnership.HomeIsNeverStranded | apps/cli/src/commands/backup.ts:654-779 | At every moment of every run, losses of power included, the last home there was is at the target, or lies in staging behind a record no contender moves. |
| HomeOwnership.NoHomeFromNowhere | apps/cli/src/commands/backup.ts:718-779 | The home at the target, and the last there was, is the first one or the payload of some swap that began. |
| HomeOwnership.OneOwner | apps/cli/src/daemon-liveness.ts:247-345 | Two live owners are one, also after losses of power that bring old records back or take unsynced ones away. |
| HomeOwnership.NextOwnerFindsAWholeHome | apps/cli/src/daemon-liveness.ts:247-345 | Whoever owns the home and is not itself swapping finds the last home there, and a loss of power would leave it there. |
| HomeOwnership.RecoveryDataStays | apps/cli/src/commands/backup.ts:974-997 | Once a swap has died half way, its record stays and the last home stays in its staging for the rest of every run, unless a loss of power puts that home, or the new one, firmly at the target. |
| ShellApprovals.NextKeepsInv | apps/daemon/src/lib/bash-approval.ts:79-226 | Begin, respond, timeout, abort, tombstone expiry and cancel-all keep the registry's invariant, whichever audits throw. |
| ShellApprovals.BeginWaits | apps/daemon/src/lib/bash-approval.ts:109-131 | A request whose mode does not deny and whose signal has not fired waits, with the claim on its tool call made. |
| ShellApprovals.BeginEndsAtOnce | apps/daemon/src/lib/bash-approval.ts:93-107 | A request whose mode denies, or whose signal has fired, ends as it begins, denied and audited as auto-denied or cancelled; a claim is made only in the first case and only under a signal that has not fired. |
| ShellApprovals.DuplicateChangesNothing | apps/daemon/src/lib/bash-approval.ts:79-90 | A call with a known id, or for a claimed tool call, changes nothing. |
| ShellApprovals.ResponseEnds | apps/daemon/src/lib/bash-approval.ts:140-154 | An answer ends its own pending request, allowed or denied as the user said, and no other. |
| ShellApprovals.TimeoutEnds | apps/daemon/src/lib/bash-approval.ts:124-126 | A timer that fires denies its pending request, audited as expired, and touches no other. |
| ShellApprovals.AbortEnds | apps/daemon/src/lib/bash-approval.ts:186-201 | A signal that fires denies exactly the requests waiting under it, audited as cancelled. |
| ShellApprovals.AbortFrees | apps/daemon/src/lib/bash-approval.ts:186-210 | It frees exactly the claims made under it, but for one whose request's audit throws. |
| ShellApprovals.TombstoneExpires | apps/daemon/src/lib/bash-approval.ts:222-224 | An expired tombstone is forgotten and nothing else happens. |
| ShellApprovals.KeysDiffer | apps/daemon/src/lib/bash-approval.ts:228-230 | Different tool calls of turns have different keys, as long as turn ids hold no zero character. |
| ShellApprovals.DecidedExactlyOnce | apps/daemon/src/lib/bash-approval.ts:166-226 | Over every interleaving a request is audited exactly once as soon as it is no longer pending and never before, and is then resolved exactly once, with the audited outcome, exactly when that audit did not throw; pending and terminal are disjoint. |
| ShellApprovals.ThrownExactlyWhen | apps/daemon/src/lib/bash-approval.ts:212-221 | The requests marked as thrown are those that some event so far audited while the callback threw at them. |
| ShellApprovals.LostForEver | apps/daemon/src/lib/bash-approval.ts:140-226 | A request whose audit threw is never resolved, pending or entombed again, whatever happens and whatever throws later. |
| ShellApprovals.DecisionsStand | apps/daemon/src/lib/bash-approval.ts:166-184 | A decision, once made, is never revised. |
| ShellApprovals.AllowOnlyFromTheUser | apps/daemon/src/lib/bash-approval.ts:140-154 | A command is allowed only where a user answered `allow` while the request was pending, and the audit of that returned. |
| ShellApprovals.OnePendingPerToolCall | apps/daemon/src/lib/bash-approval.ts:84-90 | At most one request is pending for one tool call of one turn. |
| ShellApprovals.CancelAllFailsClosed | apps/daemon/src/lib/bash-approval.ts:156-164 | Cancelling everything denies everyone who waits exactly when no audit throws, and exactly then leaves no claim; it then leaves nothing pending and no tombstone. |
| ShellApprovals.CancelAllStopped | apps/daemon/src/lib/bash-approval.ts:156-164 | When an audit throws, those before it are denied, that one request is lost, those behind it stay pending, and claims and tombstones stay. |
| ShellApprovals.SecondAnswer | apps/daemon/src/lib/bash-approval.ts:140-154 | The same answer twice is applied once, a different one conflicts, and neither changes anything; after an answer whose audit threw, the request is not found. |
| ShellApprovals.CommandApprovalRegistry.BeginApproval | apps/daemon/src/lib/bash-approval.ts:79-132 | The method moves the registry exactly as the specified event does, refuses exactly a known id or a claimed tool call, and passes on what the audit of an immediate denial throws. |
| ShellApprovals.CommandApprovalRegistry.RespondTo | apps/daemon/src/lib/bash-approval.ts:140-154 | A response settles a pending request, or throws with its audit; otherwise it reports what the tombstone says. |
| ShellApprovals.CommandApprovalRegistry.FireAbort | apps/daemon/src/lib/bash-approval.ts:186-210 | An abort settles what its signal's claims left pending and releases those claims, but for the claims of requests whose audit throws. |
| ShellApprovals.CommandApprovalRegistry.FireTimeout | apps/daemon/src/lib/bash-approval.ts:124-126 | A timer that fires denies its request if it is still pending. |
| ShellApprovals.CommandApprovalRegistry.FireTombstone | apps/daemon/src/lib/bash-approval.ts:222-224 | A tombstone that expires is forgotten. |
| ShellApprovals.CommandApprovalRegistry.CancelEverything | apps/daemon/src/lib/bash-approval.ts:156-164 | Settles every pending request in turn, up to the first whose audit throws; if there is none, it then clears tombstones and claims. |
| ShellApprovals.CommandApprovalRegistry.SettleOne | apps/daemon/src/lib/bash-approval.ts:166-184 | Settling is a no-op unless the request is pending; then it is audited, and entombed and resolved unless the audit throws. |
| ShellApprovals.CommandApprovalRegistry.ClaimAttempt | apps/daemon/src/lib/bash-approval.ts:186-201 | A claim on a signal that has already fired denies a request still pending and, unless that throws, releases the claim at once. |
| TurnRegistry.NextKeepsInv | apps/daemon/src/lib/agent-cancel.ts:44-101 | Every operation keeps: waiters only for active agents, each for the registration that is there, every call pending or resolved but not both. |
| TurnRegistry.RegisterDoes | apps/daemon/src/lib/agent-cancel.ts:44-50 | Registering adds that registration exactly when nothing is being stopped and none is there. |
| TurnRegistry.UnregisterDoes | apps/daemon/src/lib/agent-cancel.ts:52-58 | Unregistering ends that registration, resolves its waiters and leaves every other alone. |
| TurnRegistry.CancelAborts | apps/daemon/src/lib/agent-cancel.ts:60-69 | A cancel aborts the agent's own controller; what ends is what its listeners unregister, the first time only. |
| TurnRegistry.StopAborts | apps/daemon/src/lib/agent-cancel.ts:80-90 | A stop aborts the controllers of all active turns and no other; what ends by it is what their listeners unregister; a second stop does nothing. |
| TurnRegistry.WaitDoes | apps/daemon/src/lib/agent-cancel.ts:92-101 | A wait is resolved on the spot for an idle agent, and otherwise joins the waiters of the registration there. |
| TurnRegistry.StopResolvesExactlyWhenIdle | apps/daemon/src/lib/agent-cancel.ts:80-90 | After a stop, the stop promise has resolved exactly when no turn is active. |
| TurnRegistry.IdleAfterStopForEver | apps/daemon/src/lib/agent-cancel.ts:44-50 | Once the stop promise has resolved, no turn is ever active again. |
| TurnRegistry.WaiterResolvedByItsRegistration | apps/daemon/src/lib/agent-cancel.ts:52-58 | A pending wait is resolved by the end of the very registration it waited for. |
| TurnRegistry.TurnTable.RegisterAgent | apps/daemon/src/lib/agent-cancel.ts:44-50 | Registers exactly when not stopping and not active. |
| TurnRegistry.TurnTable.UnregisterAgent | apps/daemon/src/lib/agent-cancel.ts:52-58 | Ends the registration and resolves each of its waiters once. |
| TurnRegistry.UnregisterIsDrop | apps/daemon/src/lib/agent-cancel.ts:52-58 | Unregistering an agent that is not active ends nothing; otherwise it is what the method does. |
| TurnRegistry.TurnTable.CancelAgent | apps/daemon/src/lib/agent-cancel.ts:60-69 | Aborts the agent's controller, whose listeners may unregister agents on the spot. |
| TurnRegistry.TurnTable.WaitForAgentIdle | apps/daemon/src/lib/agent-cancel.ts:92-101 | Resolves at once for an idle agent, otherwise joins the waiters of the present registration. |
| TurnRegistry.TurnTable.StopAgentTurns | apps/daemon/src/lib/agent-cancel.ts:80-90 | Fences registration, installs every waiter before the first abort, then aborts every turn. |
| LifecycleLease.KthIsGrantedAfterKReleases | apps/daemon/src/lib/agent-lifecycle-lease.ts:24-52 | The k-th in an agent's line holds the lease after exactly k effective releases, and not before. |
| LifecycleLease.OneHolder | apps/daemon/src/lib/agent-lifecycle-lease.ts:24-52 | One holder per agent; a release hands over without an unheld moment; a second release changes nothing. |
| LifecycleLease.Leases.AcquireLease | apps/daemon/src/lib/agent-lifecycle-lease.ts:24-35 | A call is granted at once exactly when nobody is in line. |
| LifecycleLease.Leases.ReleaseLease | apps/daemon/src/lib/agent-lifecycle-lease.ts:37-52 | Releasing a granted call grants exactly the next in line, or frees the lease; repeating it does nothing. |
| SnapshotLock.SnapshotQueue.EnterQueue | apps/daemon/src/lib/backup.ts:21-26 | A call takes the place behind the previous tail. |
| SnapshotLock.SnapshotQueue.StartWork | apps/daemon/src/lib/backup.ts:27-29 | Work starts only when every earlier call has finished. |
| SnapshotLock.SnapshotQueue.FinishWork | apps/daemon/src/lib/backup.ts:28-32 | The next call goes on whether or not the work failed. |
| SnapshotLock.SnapshotQueue.OneAtATimeInOrder | apps/daemon/src/lib/backup.ts:15-33 | Two snapshots are never under way together, and they run in the order of the calls. |
| MessageCausality.SelectCausalParent | apps/daemon/src/lib/agent-loop-guard.ts:145-151 | The parent of a wake's messages is the first claimed message of the highest hop. |
| MessageCausality.MessageDb.EnforceMessageCausality | apps/daemon/src/lib/agent-loop-guard.ts:78-128 | A break is recorded exactly when the hop exceeds the limit and both agents are found, and always names the parent's own chain. |
| MessageCausality.MessageDb.SendAgentMessage | apps/daemon/src/lib/communication.ts:331-401 | One transaction: broken, denied, held, rejected or stored, exactly as specified; what is stored is within the limit. |
| MessageCausality.StoredWithinLimit | apps/daemon/src/lib/agent-loop-guard.ts:86-92 | Nothing over the limit is stored, and every well-addressed message over it is broken. |
| MessageCausality.AnswerExactlyWhen | apps/daemon/src/lib/communication.ts:331-401 | Which answer a send gets: broken over the limit, then denied or held by the policy, then rejected for what it refers to, and sent exactly when none of these stands against it. |
| MessageCausality.SendLeaves | apps/daemon/src/lib/communication.ts:339-366 | What each answer leaves: one message more, with its own sender, recipient and parent, the message replied to before the turn's; one break more; or nothing. |
| MessageCausality.ClaimedMessage | apps/daemon/src/lib/communication.ts:689-732 | What a wake makes of each message: allowed or granted ones are handed over and read, those that need approval stay and are asked for, denied ones are blocked, others are untouched. |
| MessageCausality.OldestFirst | apps/daemon/src/lib/communication.ts:673-732 | A wake is handed its messages in the order in which they were stored. |
| MessageCausality.ChainLeadsToItsStart | apps/daemon/src/lib/agent-loop-guard.ts:63-76 | A message's hop is its distance, along causes in one chain, from the message whose id names the chain. |
| MessageCausality.PostKeepsSound | apps/daemon/src/lib/agent-loop-guard.ts:63-76 | Sending keeps every stored message one hop after its cause in its cause's chain. |
| MessageCausality.MessageDb.ClaimDeliverableInbox | apps/daemon/src/lib/communication.ts:673-747 | Each unread message is delivered, held or blocked; the delivered ones are read before anyone else can claim them; `onAllowed` runs once, and only if something is delivered. |
| MessageCausality.ClaimKeepsSound | apps/daemon/src/lib/communication.ts:689-732 | Claiming keeps every chain sound. |
| MessageCascades.WakeDescends | apps/daemon/src/lib/communication.ts:673-747 | A wake lowers the vector of unread and owed messages at the lowest hop it handled. |
| MessageCascades.SendDescends | apps/daemon/src/lib/communication.ts:341-372 | A send that replies to nothing shallower than what its turn knows lowers the vector at the lowest hop the turn knows. |
| MessageCascades.ReadDescends | apps/daemon/src/runtime/tools/messaging.ts:85-153 | A message read into a running turn, by `read_inbox` or `wait_for_reply`, lowers the vector at its hop. |
| MessageCascades.SettleDescends | apps/daemon/src/lib/communication.ts:403-452 | A message read or blocked outside of any turn lowers the vector at its hop. |
| MessageCascades.ChildIsAbove | apps/daemon/src/lib/agent-loop-guard.ts:63-76 | What such a send stores has a higher hop than the lowest its turn knows, claimed or read. |
| MessageCascades.NearbyRepliesEnd | apps/daemon/src/lib/agent-loop-guard.ts:63-151 | Every run in which no turn replies to a stored message shallower than the lowest it knows comes to an end, whatever the policy and however the limit moves below a ceiling. |
| MessageCascades.LimitZeroEnds | apps/daemon/src/lib/agent-loop-guard.ts:63-151 | Under a limit of zero every run ends, whatever turns reply to. |
| MessageCascades.CascadesEnd | apps/daemon/src/lib/agent-loop-guard.ts:63-151 | Every run in which turns reply only to what they claimed or have read comes to an end. |
| MessageCascades.ClaimedAtMostOnce | apps/daemon/src/lib/communication.ts:673-747 | No message is claimed by two wakes. |
| EndlessReplies.RepliesToOldMessagesGoOn | apps/daemon/src/lib/agent-loop-guard.ts:63-76 | When turns may reply to any stored message, every step of the endless exchange is one the daemon takes, and no break is recorded. |
| EndlessReplies.RepliesToOldMessagesNeverEnd | apps/daemon/src/lib/agent-loop-guard.ts:63-76 | From a sound start there is an endless run of wakes and sends under any limit of one or more. |
| EndlessReplies.CascadesAlwaysEndExactlyWhen | apps/daemon/src/lib/agent-loop-guard.ts:63-151 | Let turns reply to messages up to d hops shallower than the lowest they know: every run under a ceiling ends exactly when d is zero or the ceiling is. |
| SchedulerClaims.SchedulerDb.ClaimSchedulerTrigger | apps/daemon/src/lib/communication.ts:464-671 | The method's result and tables are the specified ones, and `onAllowed` completes exactly once when the result is `claimed` and never otherwise. |
| SchedulerClaims.ClaimedExactlyWhen | apps/daemon/src/lib/communication.ts:464-671 | When a call is claimed: the trigger exists, the occurrence is not behind unless materialized, and the policy allows it or an operator approved this occurrence, message and rules. |
| SchedulerClaims.StoppedExactlyWhen | apps/daemon/src/lib/communication.ts:483-540 | Before the policy is asked: what stands against a call decides its answer, and nothing changes. |
| SchedulerClaims.RuledExactlyWhen | apps/daemon/src/lib/communication.ts:530-671 | Once it is: what each ruling leads to, which trigger is marked with which occurrence, and which approval is asked for. |
| SchedulerClaims.ClaimMarksTheOccurrence | apps/daemon/src/lib/communication.ts:536-539 | A claim, or a denial, moves that one trigger's mark to its occurrence unless it is later already, and changes nothing else. |
| SchedulerClaims.ClaimedAsApproved | apps/daemon/src/lib/communication.ts:483-505 | Under an approval, what is claimed is what was approved: dispatch, trigger, occurrence, agent, and under an enforced policy message and rules. |
| SchedulerClaims.ApprovedOccurrenceRuns | apps/daemon/src/lib/communication.ts:580-671 | An occurrence held for approval stays pending, and is claimed by the same call, materialized, once its approval has been delivered. |
| SchedulerClaims.LaterIsNotBehind | apps/daemon/src/lib/communication.ts:530-539 | Over any history, an occurrence later than the first mark and than every one that got through is not behind. |
| SchedulerClaims.LastFiredNeverMovesBack | apps/daemon/src/lib/communication.ts:537-539 | Over any history of claims, edits, removals and decisions, an occurrence passed by the mark stays passed. |
| SchedulerClaims.ClaimsStrictlyIncrease | apps/daemon/src/lib/communication.ts:530-536 | After a call got through to the policy, only a strictly later occurrence is claimed by a call that is not materialized. |
| SchedulerClaims.HeldNeedsMaterialized | apps/daemon/src/lib/communication.ts:580-620 | An occurrence held for approval is only ever run by a materialized call. |
| SchedulerClaims.MaterializedMayRepeat | apps/daemon/src/lib/communication.ts:530-545 | A materialized call may claim one occurrence as often as it is made. |
| ArchiveShape.NormalizeArchivePath | apps/cli/src/commands/backup.ts:214-235 | A path is refused exactly when it is empty, absolute, drive-like, not portable or climbs, and is otherwise its kept segments. |
| ArchiveShape.NormalizedSegments | apps/cli/src/commands/backup.ts:214-235 | A normalized path is its segments and nothing else, each a portable name. |
| ArchiveShape.NormalizeTwice | apps/cli/src/commands/backup.ts:222-234 | Normalizing again changes nothing, and refuses exactly what has come to start like a drive. |
| ArchiveShape.LinkAcceptedExactlyWhen | apps/cli/src/commands/backup.ts:237-279 | A link is accepted exactly when it is a Team slot with a host-absolute target, or a relative target elsewhere that, taken apart as if there were no other links, never steps above the root. |
| ArchiveShape.TeamSlotsAre | apps/cli/src/commands/backup.ts:242-246 | A Team slot is `teams/` and a name of small letters, digits and hyphens with no hyphen first. |
| ArchiveShape.ValidateArchive | apps/cli/src/commands/backup.ts:281-320 | An archive is accepted exactly when every entry and the whole shape are. |
| ArchiveShape.ValidateArchiveEntries | apps/cli/src/commands/backup.ts:322-377 | No complaint exactly when paths are distinct, only directories lie above entries, nothing is in browser state, the required files are regular and no transient file is listed. |
| ArchiveExtraction.AnyOrder | apps/cli/src/commands/backup.ts:322-344 | Compatible entries unpack in any order to one tree, never through a link or a file. |
| ArchiveExtraction.ShapeFits | apps/cli/src/commands/backup.ts:322-344 | What the shape check accepts is compatible. |
| ArchiveExtraction.AcceptedExtractsInAnyOrder | apps/cli/src/commands/backup.ts:281-344 | An accepted archive unpacks in any order to one tree: each entry at its own segments under the root, nothing elsewhere, relative links leading, lexically, to inside the root. |
| ArchiveExtraction.AcceptedHasTheFiles | apps/cli/src/commands/backup.ts:360-366 | What an accepted archive unpacks to has its database and credentials as regular files. |
| ArchiveExtraction.AcceptedHasNoLeftovers | apps/cli/src/commands/backup.ts:348-377 | It has nothing of a browser's at its root, and no database journal or runtime record. |
| LinkResolution.DirectLeadsWhereFollowed | apps/cli/src/commands/backup.ts:272-278 | A target that passes no link before its last name leads a system to where the lexical check follows it, and further only if a link is there. |
| LinkResolution.AcceptedLinksStayBelow | apps/cli/src/commands/backup.ts:262-279 | In an accepted archive, unpacked in any order, no path of names leads a system above the root, through whatever chain of links, if no link's relative target goes up once it has passed another link. |
| LinkResolution.DirectLinksStayBelow | apps/cli/src/commands/backup.ts:262-279 | So it is, in particular, if no target passes another link before its last name. |
| EscapingLinks.BackupEscapes | apps/cli/src/commands/backup.ts:272-320 | On a host that calls neither target absolute, the backup of a home with `d/l` leading to `..` and `x` to `d/l/..` is accepted; however it is unpacked, its tree has targets that go up at most once after a link, and opening `x` leads above the root. |
| EscapingLinks.AcceptedStaysBelowExactlyWhen | apps/cli/src/commands/backup.ts:262-320 | On a host that calls neither `..` nor `a/l/..` absolute, let relative targets go up at most d times after the first link they pass: every accepted archive, unpacked in any order, keeps every path of names below the root exactly when d is zero. |
| BackupArchive.FilterIs | apps/daemon/src/lib/backup.ts:122-141 | The filter keeps a portable place exactly when its name is not one of the excluded ones. |
| BackupArchive.FilteredPlaces | apps/daemon/src/lib/backup.ts:122-141 | Of portable places, the filter leaves out just the database and its side files, the runtime record and its claims, the root browser slot, and memory indexes of Teams. |
| BackupArchive.EntriesAccepted | apps/daemon/src/lib/backup.ts:110-148 | Every entry of a backup passes the restore's entry checks exactly when names are portable, links admissible and no file is met under two names. |
| BackupArchive.CleanShapeOk | apps/cli/src/commands/backup.ts:322-377 | The listed entries of a backup, the snapshot among them, have an acceptable shape exactly when `auth.json` is a regular file. |
| BackupArchive.AcceptedExactlyWhenRestorable | apps/daemon/src/lib/backup.ts:110-148 | A restore accepts the backup of a home exactly when the home is restorable. |
| BackupArchive.BackupRoundTrip | apps/daemon/src/lib/backup.ts:110-148 | Backing up a restorable home and unpacking, in any order, gives back what was not filtered out, with the snapshot as its database. |
| TeamInterchange.ParseTeamDocument | apps/cli/src/team-interchange.ts:100-193 | The parser with its growing key and edge sets computes the specified document, or fails with it. |
| TeamInterchange.ParsedExactlyWhen | apps/cli/src/team-interchange.ts:100-193 | Any JSON value is read as a document exactly when it has this version and kind, means that document field by field, and the document is sound. |
| TeamInterchange.SoundSlot | apps/cli/src/team-interchange.ts:117-158 | What makes a slot sound, spelled out. |
| TeamInterchange.SoundEdge | apps/cli/src/team-interchange.ts:147-180 | What makes an edge sound, spelled out: kinds, keys where there is a slot and only there, no self edge, a posture. |
| TeamInterchange.ReadsBackExactlyWhenOk | apps/cli/src/team-interchange.ts:100-193 | A written document is read back unchanged exactly when it is sound. |
| TeamInterchange.ParsingIsIdempotent | apps/cli/src/team-interchange.ts:100-193 | Whatever parses, parsing the result again changes nothing. |
| TeamInterchange.ExportParses | apps/cli/src/team-interchange.ts:71-98 | Parsing the export of a stored template yields the exported document. |
| TeamInterchange.ImportRestores | apps/cli/src/team-interchange.ts:195-224 | Importing the export of a template over that template restores every slot id and edge endpoint. |
| TeamInterchange.ImportedAsWritten | apps/cli/src/team-interchange.ts:195-209 | What an import sends of a slot is the document's own text of it; it goes to the slot of the template with its key, if there is one, and is else a new slot under its key. |
| TeamInterchange.ImportedEdgesAsWritten | apps/cli/src/team-interchange.ts:216-223 | Edges keep their kinds and posture, and an endpoint that is no slot has no id. |
| TeamInterchange.ImportedEndpointsResolve | apps/cli/src/team-interchange.ts:210-222 | In any sound document, over any template or none, an endpoint has the name of the slot with its key. |
| TeamInterchange.NamesDistinctExactlyWhen | apps/cli/src/team-interchange.ts:195-224 | Imported slots have distinct names exactly when no key that maps to no slot of the template is the slot id that another key maps to. |
| TeamInterchange.EndpointNamesOneSlot | apps/cli/src/team-interchange.ts:195-224 | Then, and over distinct slot ids, an endpoint has the name of the slot with its key and of no other. |
| TeamInterchange.TwoSlotsOneName | apps/daemon/src/core/repos/teamTemplates.ts:239-254 | A slot with id `X` at the first position and a document with the keys `slot-1` and `X` give two slots one name, which the daemon refuses as a duplicate reference. |
| TeamInterchange.KindsAreTextExactlyWhen | apps/cli/src/team-interchange.ts:148-153 | Of edges that parse, the kinds are proper exactly when the document held them as text. |
| TeamInterchange.ArrayKindAccepted | apps/cli/src/team-interchange.ts:150-153 | An array holding one kind is accepted as a kind. |
| LineReader.Reader.Read | apps/cli/src/commands/uninstall.ts:46-50 | After a call, the reads answered are exactly those the text received so far allows, each with its line. |
| LineReader.Reader.OnData | apps/cli/src/commands/uninstall.ts:37-40 | After a chunk, likewise. |
| LineReader.Reader.OnEnd | apps/cli/src/commands/uninstall.ts:41-44 | After the end of input, every read is answered. |
| LineReader.AnswersAreForTheWholeInput | apps/cli/src/commands/uninstall.ts:11-51 | An answer, once given, is the answer for any longer input: chunks and order of events do not matter. |
| LineReader.EveryReadIsAnsweredAtTheEnd | apps/cli/src/commands/uninstall.ts:19-26 | When the input has ended the n-th read has the n-th line, and the empty string once lines run out. |
| NdjsonStream.Stream | packages/client/src/index.ts:128-139 | Whatever the cuts between chunks, what is yielded is what the lines of the whole text hold, and it throws exactly at the first that does not parse. |
| NdjsonStream.YieldLines | packages/client/src/index.ts:135-137 | Blank lines are skipped; the first line that does not parse ends the yield. |
| NdjsonStream.FramesComeBack | packages/client/src/index.ts:126-139 | Streaming frames written one a line gives the frames back. |
| InboxIdentity.InboxAttemptBytes | apps/daemon/src/lib/inbox-attempt.ts:5-15 | The bytes fed to the hash are the prefix and the length-prefixed fields, in order. |
| InboxIdentity.PrefixIs | apps/daemon/src/lib/inbox-attempt.ts:5-8 | The prefix is the text that names the format, with a zero byte. |
| InboxIdentity.IdentityInjective | apps/daemon/src/lib/inbox-attempt.ts:5-15 | Different agents or different ordered ids are fed as different bytes, whatever the ids contain. |
| QueueRecovery.RestoredDb.PauseRestoredUserQueue | apps/cli/src/backup-queue-recovery.ts:5-77 | The statements, one after another, compute the specified tables. |
| QueueRecovery.ItemsSettled | apps/cli/src/backup-queue-recovery.ts:13-18 | No item stays in flight; each that was is uncertain, one revision on, under a paused agent; every other item and control is unchanged. |
| QueueRecovery.ControlsSettled | apps/cli/src/backup-queue-recovery.ts:14-18 | Exactly the agents with items in flight are paused, one revision on, with a row of their own where they had none. |
| QueueRecovery.QuestionsSettled | apps/cli/src/backup-queue-recovery.ts:39-44 | A pending question is closed and an unconfirmed continuation interrupted, each one revision on; everything else about a question is unchanged. |
| QueueRecovery.ApprovalsSettled | apps/cli/src/backup-queue-recovery.ts:47-63 | A pending approval that belongs to a question is cancelled with exactly one event; every other approval keeps its row and gets none. |
| QueueRecovery.EventsAdded | apps/cli/src/backup-queue-recovery.ts:56-62 | Events are only added, and those added are cancellations by the system. |
| QueueRecovery.NotificationsSettled | apps/cli/src/backup-queue-recovery.ts:20-38 | Notifications are paused; what was being sent is uncertain, what was put off suppressed, later than before; every other receipt is unchanged. |
| QueueRecovery.SecondRunOnlyTouches | apps/cli/src/backup-queue-recovery.ts:5-77 | A second run cancels nothing and changes nothing but revisions and timestamps. |

## Left out

- The acquisition loops as single sequential procedures: the claims are about interleavings, so `OwnershipProtocol` takes each loop one file-system call at a time; the retry count is kept, the loop's local variables are the program counter.
- Endpoint probing, heartbeats, stale-age wording and Windows `chmod`, unlink and directory-sync tolerance: they add refusals and waits only. Directory syncs are those of a POSIX host.
- The operator who removes a blocking record by hand, as the messages advise.
- Liveness of reclaim under contention: a lone contender gets the home, but the attempts are bounded and a leftover claim blocks for good, as proved.
- What an uninstall deletes, and what keeps other processes out during its own retry: nothing does.
- Error texts, except where they decide between results.
- `isAbsolute` of a Windows host is a parameter of the archive checks; case-insensitive file systems are not modelled.
- LinkResolution.AcceptedLinksStayBelow: a system stops at a place that holds nothing or a file, where the model passes on; it then reaches less. Links whose target the host calls absolute are not followed.
- File contents, modes, owners and timestamps in archives and homes, tar and gzip encoding, age envelopes, SHA-256, SQLite itself and its integrity checks.
- HomeSwap.HomeDisk.Mark: the inode comparison before a mark is one call that may fail; that it holds for a live owner is proved in the protocol.
- HomeSwap.HomeDisk.SyncDirectory: one sync of the target's parent is taken to make the staging end of a rename durable too, which the source never syncs.
- HomeSwap.HomeDisk.RemoveStaging: a removal that fails part way is counted as losing everything staged.
- ShellApprovals: an error thrown in a timer or an abort listener does not end the daemon, and does not keep other listeners from running; the listeners of one signal settle first and release after.
- LifecycleLease: `runAgentLifecycleMutation`, which wraps a lease around a caller's work and adds one check.
- MessageCausality.MessageDb.SendAgentMessage: delivery of a held message after an operator's approval, denial metrics, and the recording of policy blocks.
- MessageCausality.MessageDb.ClaimDeliverableInbox: conversation binding and the requests for approval it makes after its transaction; the held messages are returned.
- MessageCascades.CascadesEnd: messages sent by turns that no message woke start chains of their own and are not part of a cascade.
- SchedulerClaims.SchedulerDb.ClaimSchedulerTrigger: expiry of approvals as time passes is an event of the history, not a step of the call; trigger ids hold no colon, so an attempt is its pair.
- QueueRecovery.RestoredDb.PauseRestoredUserQueue: a statement that fails rolls everything back; columns the statements do not touch are represented by one each.
- TeamInterchange: team policy documents and edge differences, whose checks are a subset of these.
- NdjsonStream.Stream: UTF-8 decoding across chunks and JSON syntax; the text is taken as characters and parsing as a partial function.
- LineReader.Reader.OnData: the stream delivers no data after its end.
- InboxIdentity.IdentityInjective: ids are taken as the bytes of their UTF-8 form.
- `cron.ts`, `columnize.ts`, `attention.ts`, `approval-delivery-plan.ts` and `image-generation-config.ts`, routes, rendering and the web application: nothing proved here rests on them.
