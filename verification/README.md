# A verified model of the application's transactional services

The project models the services of the application template that change rows in
several tables at once, or in several steps that other callers can come between,
and proves what those services promise over whole runs:

- **Membership and provisioning** (`IdentityTables`, `Membership`, `GroupPatch`,
  `Invitations`, `IdentityRuns`, `IdentityGuarantees`, `IdentityService`): workspace members, the SCIM
  users and role groups that mirror them, invitations and account deletion. The
  ownership check of the SCIM path reads the mirrored role, so "exactly one owner"
  is proved together with the agreement of the mirror and with "no inactive row has
  the role owner". Group versions serve as ETags (RFC 7644, section 3.14) and group
  patches are atomic (RFC 7644, section 3.5.2).
- **The job queue and the webhook outbox** (`JobQueue`, `Outbox`, `OutboxRuns`): an
  at-least-once queue with leases, bounded attempts and an exhausted path, coupled
  to delivery rows that workers move one statement at a time. Workers may stall,
  crash, or come back after their lease was taken over.
- **Items** (`ItemTables`, `ItemOps`, `ItemRuns`, `ItemGuarantees`, `ItemCalls`,
  `ItemService`),
  with the **change feed** (`ChangeFeed`), **pagination** (`Pagination`) and
  **search** (`Search`): versioned writes, idempotent creates that may race, a
  pruned event log that clients resume from, keyset cursors, and a literal search
  compiled to `LIKE`. `SystemRuns` puts the item service and the webhook
  workers on one database.
- **Second factors and sessions** (`Mfa`, `MfaRuns`, `Sessions`): loading a
  challenge, reserving an attempt, checking a code and committing are separate
  steps of concurrent processes.
- **File finalization** (`Files`, `FileRuns`): uploads and completions that look at
  a row twice, the second time under a lock, and a quota per workspace.
- **The rate limiter** (`RateLimiter`): one fixed window per source in a bounded map.

`Ordering`, `Sums` and `Wrappers` are shared helpers.

## How to read it

A table is a map from primary keys to rows, a database state a record of tables. Each
service is a class whose field holds that record: a method works on a copy and assigns
it back to commit, so an early return is a rollback. Every such method is proved equal to
a specification function (a *fault* saying when a call is refused and in which order the
checks run, and an *effect*), and what the service promises is proved about runs of those
functions: sequences of calls for single transactions, interleavings of steps for
work that spans several. Beside that, for each kind of call a lemma says in terms of the
tables alone exactly when it takes effect (`AddMemberDecides`, `AcceptancesAreExact`,
`LoginsNeedTheirFactor`, `ListedIff` and so on) and what it then leaves. Random draws, clock readings, the network and the answers of
other services are parameters.

Assumptions: ids, tokens and secrets are never drawn twice and the id of a file that
Upload makes is named by no other call before Upload returns it; hashes do not collide,
time is an integer number of nanoseconds, transactions are serializable, and deleting
a user deletes the membership, SCIM and invitation rows that refer to it.

Four promises do not hold of the code without a condition. For each, theorems over all
inputs say exactly when it holds, and an input that breaks it is given:

- **Pagination.** Following the cursors shows every match once, if and only if all
  matches fit on one page or the cursors fit in 512 bytes
  (`Pagination.PaginationIsExact`; `Pagination.LongSearchIsRefused`).
- **Webhooks.** No waiting delivery is abandoned, if and only if no worker that lost a
  statement in its fifth attempt finishes its job while it still holds the lease and the
  delivery still waits (`OutboxRuns.FinishedJobsAreSettled`,
  `OutboxRuns.WaitingDeliveriesHaveJobs`; `OutboxRuns.LostWriteStrandsDelivery`).
- **The change feed.** The history lists the changes of one transaction by key, because
  readers see them all at once. There is no gap if and only if the events table is a
  rising end of that history (`ItemGuarantees.FeedAfterAnyRun`). In terms of what was
  written: with imports of fewer than 1000 rows, if and only if every transaction's keys
  are above all earlier ones (`ItemGuarantees.NeverAGapIffKeysRise`;
  `ChangeFeed.SameInstantSkipsAnEvent`). If they are, larger imports leave no gap if and
  only if fewer than 1000 events are above the last one recorded
  (`ItemGuarantees.RisingFeedIsExact`): 1000 rows are always safe, and 1001 with falling
  ids are not (`ItemGuarantees.FallingImport`). The limit on import rows is 1000 by
  default and can be set up to 10000 (internal/platform/config/config.go:516). A call whose
  three queries see different tables is exact if and only if nothing after its cursor was
  pruned meanwhile (`ChangeFeed.SplitReadIsExact`).
- **ETags of groups.** Between two readings of a group, an unchanged version means
  unchanged members, if and only if no account in the group was deleted
  (`IdentityRuns.EtagsHold`; `IdentityRuns.StaleEtag`).

## Model

| member | source | states |
|---|---|---|
| IdentityRuns.ReachableStates | internal/identity/service.go:494-698 | after every run of bootstrap, workspace creation, member, SCIM, invitation and account calls, each workspace has exactly one owner, a user is a member iff their SCIM row is active, the two roles agree, and no inactive row is an owner's |
| IdentityRuns.StepKeeps | internal/identity/scim.go:236-441 | each call, committed or refused, keeps one owner, the mirror, the schema and the invitation rules; versions never fall, and no call but account deletion changes a group's member list without raising its version |
| IdentityRuns.EtagsHold | internal/identity/scim.go:640-658 | from the empty service on, through any calls: between two readings of a group its version does not fall, and an unchanged version means unchanged members if and only if no account was deleted that was in the group at that moment |
| IdentityRuns.PatchesFold | internal/identity/scim.go:486-595 | in any run, a patch that commits turns the group's members into the fold of its operations, takes the added users out of every other group, and moves the version up by one |
| IdentityRuns.DeletionEtags | internal/identity/account.go:383-427 | in any run, account deletion moves no version, and leaves a group's member list as it was if and only if the account was not in that group |
| IdentityRuns.StaleEtag | internal/identity/account.go:383-427 | a run from the empty service after which a deletion leaves all group versions as they were and changes a member list: bootstrap, a second user, who joins and then deletes the account |
| IdentityRuns.RunVersionsRise | internal/identity/scim.go:640-658 | over any run the version of a group never falls |
| IdentityRuns.EtagIdentifiesMembers | internal/identity/scim.go:746-777 | from any state that satisfies the invariants, whatever runs in between: a group read twice at one version has the same members both times, but for exactly those whose accounts were deleted while they were in it |
| IdentityRuns.DeleteEtag | internal/identity/account.go:383-427 | the same for one deletion in any state that satisfies the invariants: account deletion moves no version, and leaves a group's member list as it was if and only if the account was not in that group |
| IdentityRuns.AtMostOnePatchCommits | internal/identity/scim.go:508-510 | of all patches of a group conditioned on one version, at most one commits in any run |
| IdentityRuns.CommittedPatch | internal/identity/scim.go:486-595 | the same for one patch in any state that satisfies the invariants: a committed patch turns the group's members into the fold of its operations, takes the added users out of every other group, and moves the version up by one |
| IdentityRuns.TransferStep | internal/identity/service.go:586-643 | a transfer makes the other member the owner and the former owner an admin, through a state with two owners, and keeps every invariant |
| IdentityRuns.InvitationsAreAcceptedOnce | internal/identity/invitation.go:471-555 | over any run an invitation is accepted at most once for each time its id is drawn, which is once, whatever is resent, revoked, expired or deleted in between |
| IdentityRuns.AcceptancesAreInTime | internal/identity/invitation.go:471-555 | whatever call of a run marks an invitation accepted is an acceptance, made while the invitation is open and before its deadline at both clock readings |
| IdentityGuarantees.OnlyManagersAct | internal/identity/service.go:494-698 | in any run a call in the name of a workspace changes something only if its caller is an owner or admin there, the owner where ownership moves, with the permission for this kind of call |
| IdentityGuarantees.WorkspacesAreApart | internal/identity/service.go:494-698 | in any run such a call changes no row of another workspace, and no account that was there |
| IdentityGuarantees.AcceptancesAreExact | internal/identity/invitation.go:452-555 | in any run a call turns an invitation into an accepted one if and only if it presents its secret while it is open and in time, for a registered user with its address or a new account, who is no member and free to join |
| IdentityGuarantees.AcceptedUserJoins | internal/identity/invitation.go:516-555 | and then the user who joins has the invitation's address, was no member, gets its role, below owner, and no other membership changes |
| IdentityGuarantees.UserPatchesAreConditional | internal/identity/scim.go:359-441 | in any run, of all patches of one SCIM user sent with one version, deactivations by DELETE included, at most one takes effect, and one more for each time the row goes with its account |
| IdentityGuarantees.PatchUserDecides | internal/identity/scim.go:359-393 | a patch of a SCIM user takes effect if and only if the caller may manage SCIM, the row stands at the version sent, nothing immutable is touched and the owner stays |
| IdentityGuarantees.PatchUserMoves | internal/identity/scim.go:394-441 | and then the row moves from the version sent to the next and takes the activity asked for, and membership follows it |
| IdentityGuarantees.PatchGroupDecides | internal/identity/scim.go:486-535 | a role group is patched if and only if the caller may manage SCIM, the group stands at the version sent, and every operation is understood, names somebody, and names only mapped users who are not the owner |
| IdentityGuarantees.CreateScimDecides | internal/identity/scim.go:236-357 | a SCIM user is made if and only if the caller may manage SCIM, the address and external id are usable, and the workspace has neither mapped; the account of the address becomes a plain member under version one |
| IdentityGuarantees.ScimReplays | internal/identity/scim.go:262-300 | a replayed creation answers with a row of the workspace whose account has that address, under the external id sent or of a member |
| IdentityGuarantees.AddMemberDecides | internal/identity/service.go:494-533 | a user is added if and only if the caller may, below owner, is registered, no member, and free to take an external id; the membership gets the role asked for |
| IdentityGuarantees.ChangeRoleDecides | internal/identity/service.go:535-584 | a role changes if and only if the caller may, the new one is below owner, and the member is there and not the owner |
| IdentityGuarantees.RemoveMemberDecides | internal/identity/service.go:645-698 | a member leaves if and only if the caller may say so and the member is not the owner, and leaves an inactive row |
| IdentityGuarantees.OnlyThoseGroupsMove | internal/identity/scim.go:640-689 | a call that changes one membership moves up the group of the former role and of the new one, each once, and no other, and none if neither role nor activity changes |
| IdentityGuarantees.TransferDecides | internal/identity/service.go:586-643 | ownership moves if and only if the owner hands it to another member; exactly those two roles change |
| IdentityGuarantees.DeleteAccountDecides | internal/identity/account.go:383-427 | an account goes if and only if it is there and owns nothing; with it go its memberships, SCIM rows and the invitations it sent, and nothing else |
| IdentityGuarantees.CreateWorkspaceDecides | internal/identity/service.go:193-267 | a workspace opens if and only if the second factor and the name pass and the user is registered, who then owns it, with its groups at version one |
| IdentityGuarantees.BootstrapsOnce | internal/identity/service.go:77-177 | no run sets the service up twice |
| IdentityGuarantees.BootstrapDecides | internal/identity/service.go:77-177 | the set-up takes effect if and only if there was none, and leaves its mark, an account and a workspace it owns, with its groups at version one |
| IdentityGuarantees.InviteDecides | internal/identity/invitation.go:37-125 | an invitation is made if and only if the caller may, the role is below owner, it lasts a minute to thirty days, and the address has neither a member nor an open invitation in time; it stands for exactly that time |
| IdentityGuarantees.ResendDecides | internal/identity/invitation.go:127-203 | an invitation is sent anew if and only if the caller may, it was neither accepted nor revoked, and its address has no other open one; it gets the new secret and deadline and keeps address and role |
| IdentityGuarantees.RevokeDecides | internal/identity/invitation.go:205-271 | an open invitation of the workspace is revoked, or marked expired if its time is up, if and only if the caller may |
| IdentityGuarantees.ListingMarks | internal/identity/invitation.go:273-357 | listing marks exactly what has run out in the workspace |
| GroupPatch.PatchIsFold | internal/identity/scim.go:511-580 | the patched group's members are the left fold of union and difference over the operations |
| GroupPatch.PatchElsewhere | internal/identity/scim.go:551-561 | every other group loses exactly the users added to the patched one |
| GroupPatch.PatchLeavesUnnamed | internal/identity/scim.go:511-580 | a user no operation names keeps row and membership, as does everybody in other workspaces |
| GroupPatch.PatchKeeps | internal/identity/scim.go:486-595 | a patch without a fault keeps schema, mirror and ownership |
| GroupPatch.PatchEtags | internal/identity/scim.go:581-583 | the patched group and every group that loses a member to it get a new version, and no other group's member list changes |
| GroupPatch.PatchLogsOut | internal/identity/scim.go:553-577 | whoever loses membership by a patch has their sessions and tokens revoked; whoever has them revoked was removed by name, and unless they lost membership they were added by name too |
| Membership.MovedKeeps | internal/identity/scim.go:660-689 | rewriting one user's membership and mirror row together keeps every membership fact, if it neither adds nor removes an owner |
| Invitations.AcceptanceIsGuarded | internal/identity/invitation.go:516-555 | accepting an open invitation adds exactly one member below owner, marks the invitation accepted, and keeps every invariant |
| IdentityService.BumpGroupVersions | internal/identity/scim.go:640-658 | each listed role's group goes up by one, however often the role is listed, and the owner has none |
| IdentityService.EnsureScimMembership | internal/identity/scim.go:609-638 | a member's mirror row is rewritten, or created under the user's own id if that external id is free |
| IdentityService.SyncRow | internal/identity/scim.go:660-689 | a mirror row takes role and activity, and group versions move only if either changed |
| IdentityService.EnsureScimGroups | internal/identity/scim.go:691-721 | missing role groups appear at version 1, existing ones stay |
| IdentityService.PatchMember | internal/identity/scim.go:524-577 | one named member: the fault judged on the state before the whole patch, or the effect of one more step |
| IdentityService.PatchMembers | internal/identity/scim.go:511-580 | the loop over operations stops at the first fault of the whole sequence, or reaches the pointwise effect of all steps together with the set of groups to bump and those whose sessions and tokens are revoked |
| IdentityService.Service.Bootstrap | internal/identity/service.go:77-177 | the first owner, workspace and groups appear once; later calls are refused and change nothing |
| IdentityService.Service.CreateWorkspace | internal/identity/service.go:193-267 | a new workspace with its creator as owner, mirror row and groups, or nothing; a missing second factor is reported before a bad name, and that before an unknown user |
| IdentityService.Service.AddMember | internal/identity/service.go:494-533 | a user joins below owner with a mirror row, or the call is refused and nothing changes |
| IdentityService.Service.ChangeMemberRole | internal/identity/service.go:535-584 | a member's role changes in both tables; the owner's cannot |
| IdentityService.Service.TransferOwnership | internal/identity/service.go:586-643 | both roles are written before both mirror rows, to the same end as one join after the other |
| IdentityService.Service.RemoveMember | internal/identity/service.go:645-698 | a member other than the owner leaves, and an inactive mirror row stays |
| IdentityService.Service.DeleteAccount | internal/identity/account.go:383-427 | an account that owns nothing goes with all rows that refer to it |
| IdentityService.Service.CreateScimUser | internal/identity/scim.go:236-357 | replay, conflict or insertion, decided by external id, address and membership in the order the call checks them; nothing changes unless it inserts |
| IdentityService.Service.PatchScimUser | internal/identity/scim.go:359-441 | activation and deactivation under a version, refused for the owner, with the mirrored role restored on return; sessions and tokens are revoked of exactly those who lose membership |
| IdentityService.Service.PatchScimGroup | internal/identity/scim.go:486-595 | all operations of a patch take effect, or none; sessions and tokens are revoked of those whom some operation takes out |
| IdentityService.Service.DeleteScimUser | internal/identity/scim.go:443-446 | deactivation by another name, with sessions and tokens revoked |
| IdentityService.Service.CreateInvitation | internal/identity/invitation.go:37-125 | overdue invitations to the address are closed first; a second open one, or one to a member, is refused |
| IdentityService.Service.ResendInvitation | internal/identity/invitation.go:127-203 | an invitation neither accepted nor revoked gets a new secret and deadline, unless its address has another open one |
| IdentityService.Service.RevokeInvitation | internal/identity/invitation.go:205-271 | an open invitation is revoked; an overdue one is marked expired although the call fails |
| IdentityService.Service.ListInvitations | internal/identity/invitation.go:273-357 | listing marks every overdue invitation of the workspace |
| IdentityService.ExpireInvitations | internal/identity/invitation.go:557-626 | the loop marks exactly the overdue open invitations in question |
| IdentityService.Service.AcceptInvitation | internal/identity/invitation.go:359-390 | an existing user accepts, or an overdue invitation is marked, or nothing changes |
| IdentityService.Service.CreateInvitedLocalUser | internal/identity/invitation.go:392-449 | a new user is created and accepts in one transaction, or neither happens |
| JobQueue.ReachableJobs | internal/jobs/queue.go:233-315 | in every reachable state a row is running exactly while it holds a lease, pending means at most 4 attempts, failed at least 5, and attempts count claims |
| JobQueue.AttemptsRise | internal/jobs/queue.go:244-258 | successive claims of a job carry strictly rising attempt numbers |
| JobQueue.HandlerRunsAtMostFiveTimes | internal/jobs/queue.go:178-194 | however many workers there are, a job's normal handler is given at most five claims |
| JobQueue.FinishIffLatest | internal/jobs/queue.go:299-315 | whatever others do after a claim, its finish changes the table if and only if nobody claimed the row again and it was not finished before |
| JobQueue.OverIsFinal | internal/jobs/queue.go:299-315 | succeeded and failed rows never change |
| JobQueue.OneJobPerKey | internal/jobs/queue.go:106-137 | in every reachable state there is at most one job per workspace, kind and key |
| JobQueue.Drains | internal/jobs/queue.go:162-202 | with handlers that return in time, n fresh jobs take at most 5n turns, and all are over once no turn is possible although every delay has passed |
| JobQueue.BackoffAtMostFifteenSeconds | internal/jobs/queue.go:348-353 | a fresh job's retries schedule at most 1 + 2 + 4 + 8 seconds of delay, and exactly that if it ends up failed |
| JobQueue.Queue.EnqueueTx | internal/jobs/queue.go:106-137 | a job appears once per workspace, kind and key |
| JobQueue.Queue.Claim | internal/jobs/queue.go:233-297 | the first due row in the engine's order is leased for a minute under a new token with its attempt counted, or no row is due; a running row is due only when its lease has been reached |
| JobQueue.Queue.FinishClaim | internal/jobs/queue.go:299-315 | the outcome is written only if the row is still leased under the claim's token: succeeded, failed from the fifth attempt on, or pending after the delay of the attempt |
| JobQueue.Queue.Process | internal/jobs/queue.go:162-202 | all the loop does is a run of the queue's steps; a turn records success if and only if the kind has a handler, the attempt is one of the first five, and the handler succeeded; the claims handed to normal handlers are exactly those; and it ends early only if no row is due or an exhausted handler refuses |
| Outbox.OneDeliveryPerSubscriber | internal/webhooks/service.go:365-446 | publishing adds exactly one delivery for each webhook of the workspace subscribed at that moment, none for others, and touches no other delivery |
| Outbox.OneJobPerDelivery | internal/webhooks/service.go:416-446 | it adds exactly one pending job for each new delivery, and touches no other job |
| Outbox.SubscribersAreServed | internal/webhooks/service.go:365-446 | a webhook of the workspace subscribed to the event at that moment gets exactly one delivery of it and one job for that delivery |
| Outbox.PublishInTx | internal/webhooks/service.go:365-446 | the loop over targets reaches the whole publication |
| Outbox.Deliverer.DeliverOne | internal/webhooks/service.go:503-560 | one attempt reports success exactly when the delivery is settled or not this workspace's, settles it on delivery and on a failed fifth attempt, and touches no other row |
| Outbox.Deliverer.DeliveryFailure | internal/webhooks/service.go:562-582 | a failed attempt closes the delivery from the fifth on, and only if it is still pending |
| Outbox.Deliverer.HandleExhausted | internal/webhooks/service.go:468-491 | after the exhausted path a delivery of the workspace is no longer pending, unless the database refused the write |
| OutboxRuns.NextKeeps | internal/webhooks/service.go:503-582 | each statement of any worker, and each publication, webhook change and clean-up, keeps jobs and deliveries in agreement, except a stranding finish: one by a worker that lost a statement in its fifth attempt, still holds the lease, and whose delivery still waits |
| OutboxRuns.StrandBreaks | internal/webhooks/service.go:468-513 | every stranding finish leaves a failed job whose delivery is still pending |
| OutboxRuns.StrandStrands | internal/jobs/queue.go:299-315 | and no other job will come for that delivery |
| OutboxRuns.LostStatementMatters | internal/webhooks/service.go:503-582 | a refused statement followed by the worker's finish strands a delivery if and only if it was the fifth attempt or later, the worker still held the lease, and the delivery still waited; stale workers and settled deliveries do not mind it |
| OutboxRuns.FinishedJobsAreSettled | internal/webhooks/service.go:468-582 | in every interleaving: at every stage no succeeded or failed job has a pending delivery, if and only if no move of the run is a stranding finish |
| OutboxRuns.WaitingDeliveriesHaveJobs | internal/webhooks/service.go:365-446 | in every interleaving: at every stage every pending delivery has a job that is pending or running, if and only if no move of the run is a stranding finish |
| OutboxRuns.SettledIsFinal | internal/webhooks/service.go:503-582 | a delivery that is settled or gone is never pending again, whatever is cleaned up in between, as its id is not drawn twice |
| OutboxRuns.LostWriteStrandsDelivery | internal/webhooks/service.go:503-513 | a run from the empty tables that strands a delivery: a publication, four failed attempts, and a fifth whose read is refused; the job is failed, its delivery pending, and no job is left for it |
| OutboxRuns.AttemptAsMoves | internal/webhooks/service.go:503-560 | an uninterrupted attempt is the composition of a worker's four statements |
| SystemRuns.ChangesAreDeliveredOrUnderWay | internal/items/service.go:274-278 | item service and workers on one database: at every stage of every run each delivery of each committed change is settled, gone, or has a job that is pending or running, if and only if no move is a stranding finish |
| SystemRuns.CommittedChangeReachesWebhooks | internal/items/service.go:274-278 | a committed create, update or delete has at once one pending delivery per webhook subscribed to it, and at any later time of a run without stranding finishes that delivery is settled, gone, or has a live job |
| ChangeFeed.RecordStamps | internal/items/events.go:124-153 | recording keeps the newest 999 events of the workspace and adds the new one; other workspaces keep theirs |
| ChangeFeed.TableIsUpwardClosed | internal/items/events.go:133-140 | after any sequence of recordings the table lacks nothing above what it holds if and only if fewer than 1000 recorded events are above the last one |
| ChangeFeed.NoGapsIffRisingSuffix | internal/items/events.go:79-110 | the page after every retained event, of whatever size, is the next part of the history if and only if the table is the end of the history and keys rise there |
| ChangeFeed.PagesFollowIffRising | internal/items/events.go:79-110 | when the table holds the whole history, pages follow one another if and only if keys rise |
| ChangeFeed.OutOfOrderSkips | internal/items/events.go:79-87 | of two neighbours in the history whose keys do not rise, the second is on no page after the first, of any size |
| ChangeFeed.NoGapsIffLastIsNearTheTop | internal/items/events.go:124-153 | when keys rise from transaction to transaction, there are no gaps if and only if fewer than 1000 recorded events are above the one recorded last |
| ChangeFeed.NoGapNeedsRisingKeys | internal/items/events.go:124-153 | a transaction of fewer than 1000 changes that leaves no gap has keys above all earlier ones |
| ChangeFeed.NoGaps | internal/items/events.go:34-110 | when the table is the newest 1000 changes of a rising history, a page after an event is exactly the next changes of the full history, or a resync; the latter exactly when the event is not among the newest 1000 |
| ChangeFeed.PollsAreContiguous | internal/items/events.go:79-110 | a client that resumes at each page's cursor receives the history after its first event without gap or repetition, however the feed grows and is pruned between polls, as long as the feed it polls has no gaps |
| ChangeFeed.SplitReadIsExact | internal/items/events.go:55-110 | when the table moves on between the three queries of one call, the page is still the next part of the history if and only if no change after the cursor has been pruned before the rows are read |
| ChangeFeed.SameInstantSkipsAnEvent | internal/items/events.go:79-87 | a concrete input: two events of one instant, recorded one after the other with ids in the wrong order; a client that has seen the first is never shown the second |
| ItemRuns.ReplayIsLiveItems | internal/items/service.go:178-182 | replaying the full log gives exactly the live items and their versions |
| ItemRuns.EveryItemHasAStory | internal/items/service.go:483-577 | each item's events carry versions 1 to n without a gap, created first and deleted only last, and a live item stands at version n |
| ItemRuns.AtMostOneCommitPerVersion | internal/items/service.go:483-560 | of all updates and deletes of an item sent with one version, at most one commits |
| ItemGuarantees.FeedAfterAnyRun | internal/items/events.go:34-153 | after every run of creates, updates, deletes and imports of any size: the table of each workspace is the newest 999 of all events recorded before the last, and the last; and there are no gaps if and only if it is a rising end of the history |
| ItemGuarantees.NeverAGapIffKeysRise | internal/items/service.go:152-183 | with imports of fewer than 1000 rows, no gap exists at any stage of a run if and only if every transaction's keys are above all earlier ones; the ids inside one import may fall in any order |
| ItemGuarantees.RisingFeedIsExact | internal/items/service.go:152-183 | with imports of any size whose keys rise from transaction to transaction, a run ends without a gap if and only if fewer than 1000 events are above the one recorded last |
| ItemGuarantees.FallingImport | internal/items/service.go:152-183 | the first import of a workspace, with event ids that fall from row to row, leaves a gap if and only if it has more than 1000 rows |
| ItemGuarantees.FeedHasNoGaps | internal/items/events.go:34-153 | after every run with imports of at most 1000 rows whose keys rise from transaction to transaction, the events table of each workspace holds exactly the newest 1000 changes, and a page is the next changes of the whole history or a resync |
| ItemGuarantees.StageIsPollable | internal/items/events.go:34-153 | every stage of such a run is one that polling clients are promised contiguity for |
| ItemGuarantees.MadeOnce | internal/items/service.go:188-321 | once a key has a record, no create under it that read the clock before the record expires makes an item, whatever it had read, whenever it finishes, and whatever else is created in between |
| ItemGuarantees.CreateIsRemembered | internal/items/service.go:281-305 | a committed create leaves a record that lasts 24 hours and that no create already under way can replace |
| ItemGuarantees.CreateIsIdempotent | internal/items/service.go:206-239 | a create that begins while the record stands replays the same item for the same title and reports a conflict for another, whatever else commits before it finishes |
| ItemGuarantees.CreatesHappenOnce | internal/items/service.go:188-321 | after a committed create of any run from the empty service, no create under its key whose clock reading is within 24 hours of the first one makes an item, in any continuation |
| ItemGuarantees.CreatesAreReplayed | internal/items/service.go:206-239 | and each that begins after it within those 24 hours, as long as none under the key has begun later than that, answers from the first one: the same item, a conflict for another title, or a refusal of malformed or forbidden input, and changes nothing |
| ItemGuarantees.VersionIdentifiesItem | internal/items/service.go:480-509 | an item read at two stages of a run has the same workspace, author and creation time both times, its version does not fall, and it is unchanged if and only if its version is |
| ItemCalls.WritesStayInTheirWorkspace | internal/items/service.go:128-593 | in any run a write changes something only if its caller may write, and then items of its own workspace only |
| ItemCalls.TitlesAreProper | internal/items/service.go:697-703 | after any run every item has a title of one to two hundred characters with no space at either end |
| ItemCalls.CreateDecides | internal/items/service.go:188-305 | a create commits if and only if title and key are in order, the caller may write, the key is unused or what was seen of it has run out and still stands, and the workspace has room |
| ItemCalls.CreateLeaves | internal/items/service.go:240-305 | and then there is one more item, the caller's, active, at version one, under the trimmed title, and a record of it for a day |
| ItemCalls.WriteDecides | internal/items/service.go:442-577 | an update or delete commits if and only if the caller may write and it was sent with the version at which the item stands, in its workspace, an update with a proper edit |
| ItemCalls.WriteLeaves | internal/items/service.go:480-577 | and then the update leaves the title and status asked for at the next version, the delete takes the item out, and the event carries the next version |
| ItemCalls.ImportDecides | internal/items/service.go:128-186 | an import goes through if and only if the caller may write, it has rows, they fit beside the items there are, and each is proper |
| ItemCalls.ImportLeavesRows | internal/items/service.go:152-183 | and then each row has left one item, the caller's, at version one, with its trimmed title and the status it names, active if none |
| ItemGuarantees.ChangesArePublished | internal/items/service.go:274-278 | a committed create, update or delete adds exactly one delivery and one job per webhook subscribed to that event |
| ItemGuarantees.OtherwiseUnpublished | internal/items/service.go:128-186 | imports and refused calls add no delivery and no job |
| ItemGuarantees.WorkspacesStayWithinLimit | internal/items/service.go:240-249 | no run of creates and imports takes a workspace over its item limit |
| ItemGuarantees.PagesOfARunNeverRepeat | internal/items/service.go:409-435 | no walk through the pages of a live workspace shows an item twice |
| ItemService.Items.Create | internal/items/service.go:188-321 | one attempt on the tables as it finds them, and one more, on the tables as others have left them by then, if the first collides; the second collision is a conflict |
| ItemService.Items.CreateOnce | internal/items/service.go:188-321 | replay, conflict, refusal, collision or a new item with event, deliveries and record, in the order the transaction checks |
| ItemService.Items.Update | internal/items/service.go:442-528 | an update commits only against the version it was sent with, and writes item, event and deliveries together |
| ItemService.Items.Delete | internal/items/service.go:530-593 | a delete commits only against the version it was sent with, and its event carries the next version |
| ItemService.Items.ImportInTx | internal/items/service.go:128-186 | all rows of an import are stored, or none |
| ItemService.Items.Changes | internal/items/events.go:34-110 | three queries, each on the events as it finds them: the page and its cursor, or the request to start over; the page of one atomic read if nobody commits in between |
| ItemService.Items.List | internal/items/service.go:349-440 | a page and, if more rows match, a cursor at its last row; bad input and foreign cursors are refused in that order |
| Pagination.PaginationIsExact | internal/items/service.go:393-435 | following the cursors yields every matching item once, in order, and ends, if and only if all matches fit on one page or cursors fit in 512 bytes; otherwise the client is refused after the first page |
| Pagination.OwnCursorAccepted | internal/items/service.go:666-695 | a page's own cursor is taken back if and only if the search costs at most what the rest of the cursor leaves of 512 bytes |
| Pagination.ShortSearchesFit | internal/items/service.go:666-695 | searches of up to 62 characters always fit |
| Pagination.LongSearchIsRefused | internal/items/service.go:666-695 | a hundred less-than signs are a valid search whose second page cannot be had |
| Pagination.FollowIsListing | internal/items/service.go:349-440 | each step of a walk is a call of List with the cursor of the page before |
| Pagination.ListedIff | internal/items/service.go:349-378 | a page is given if and only if the caller may read, the search has at most a hundred characters, the limit is from 1 to 100, status and sort are known, and there is no cursor or one cut for the same filter that fits in 512 bytes |
| Pagination.ListedItems | internal/items/service.go:380-435 | the items of a page have the status and search the input asks for, come after its cursor, are at most as many as its limit, and rise by creation time and id, or fall if the sort says so |
| Pagination.ListedAll | internal/items/service.go:380-435 | whatever the input asks for after its cursor is on the page, or the page is full, ends before it, and has a cursor at its last item |
| Pagination.NextIff | internal/items/service.go:424-435 | a cursor is handed out if and only if something the input asks for is left after the page |
| Pagination.StillTables | internal/items/service.go:409-435 | a walk over tables that may change between pages is, if they do not, the walk over one table |
| Pagination.MatchesIsTheQuery | internal/items/service.go:380-392 | the rows that count as matches are those the query's status and LIKE clauses select, also for the empty search, whose clause is left out |
| Pagination.NeverSkipped | internal/items/service.go:409-435 | an item that exists and matches whenever a page is cut is on one of the pages of a walk that is not refused, whatever is created or deleted in between |
| Pagination.NeverRepeated | internal/items/service.go:409-435 | no item is on two pages, if items keep their creation times |
| Search.SearchIsLiteral | internal/items/service.go:721-724 | the pattern matches exactly the titles that contain the search literally, case folded, whatever wildcards or backslashes either contains |
| Search.SearchIsLiteralOnSqlite | internal/items/service.go:389-392 | the same for SQLite, whose LIKE folds ASCII letters by itself |
| Sessions.NewestNineStay | internal/identity/session.go:132-168 | creating a session leaves exactly the nine newest active ones beside it, or all if there are fewer |
| Sessions.AtMostTenActive | internal/identity/session.go:93-168 | while the clock does not fall, no user ever has more than ten sessions that are neither revoked nor expired |
| Sessions.RevokedForGood | internal/identity/session.go:255-297 | a session its user has revoked, alone or with all others, is never active again, whatever comes after; nobody else's is touched |
| Sessions.CreateDecides | internal/identity/session.go:50-115 | a session is made if and only if the method of authentication is in order, the user is known, and it is to last a minute to thirty days |
| Sessions.SessionsExpire | internal/identity/session.go:50-115 | a session is its user's, begins active, and ends after a day, or the time asked for, thirty days at most, whatever comes after |
| Sessions.EnforceSessionLimit | internal/identity/session.go:117-170 | the loop revokes exactly the surplus |
| Sessions.Store.CreateSession | internal/identity/session.go:50-115 | the surplus is revoked and the session inserted, or nothing changes |
| Sessions.Store.RevokeSession | internal/identity/session.go:255-297 | a session is revoked once, by its own user |
| MfaRuns.AtMostFiveChecks | internal/identity/mfa.go:802-809 | however many completions run at once, at most five codes are checked against one challenge |
| MfaRuns.OneSessionPerChallenge | internal/identity/mfa.go:826-865 | a challenge opens at most one session, strictly before it expires |
| MfaRuns.CodesAreRedeemedOnce | internal/identity/mfa.go:422-475 | no recovery code opens two sessions |
| MfaRuns.EnrolledUsersKeepAFactor | internal/identity/mfa.go:590-663 | a user who has enrolled keeps a TOTP secret or a live passkey in every reachable state |
| MfaRuns.StepKeeps | internal/identity/mfa.go:405-663 | every step of every process, and every removal of a factor, keeps attempts equal to reservations, challenges won once and factors in place |
| MfaRuns.EnrolmentLeavesCodes | internal/identity/mfa.go:902-928 | after an enrolment the user has the codes that were left, or ten new ones |
| MfaRuns.LoginsOwnTheirSessions | internal/identity/mfa.go:422-475 | in any run, every login that a process has completed has a live or ended session row of its own, no two logins the same, and it is the user's |
| MfaRuns.LoginsNeedTheirFactor | internal/identity/mfa.go:422-550 | in any run a commit opens a session if and only if the process has reserved an attempt, has not won, has passed its check, its challenge is neither used up nor expired, and the user still has the factor it used: a TOTP secret, the unused code, or the unrevoked credential with its counter in order |
| MfaRuns.LoginOutcome | internal/identity/mfa.go:422-550 | and then the challenge was for a login of that user and is used up, the session is the user's and lasts a day, and no factor but the one code has changed |
| MfaRuns.EnrolmentsNeedTheirSession | internal/identity/mfa.go:236-403 | in any run a commit that adds a factor does so for the user of a challenge begun to add it, from the session it was begun in, live at that moment |
| MfaRuns.LoadDecides | internal/identity/mfa.go:758-778 | a challenge is taken up if and only if it is of the method's kind, in time, not used up, not tried five times, and for an enrolment begun in the same session |
| MfaRuns.ReserveDecides | internal/identity/mfa.go:802-809 | a process reserves an attempt once, while its challenge is neither used up nor tried five times |
| MfaRuns.RemovalDecides | internal/identity/mfa.go:590-663 | a passkey is removed if and only if it is a live one of the user's, who has recently authenticated and has another factor; TOTP if and only if it is there and a live passkey is left |
| MfaRuns.RemovalEndsSessions | internal/identity/mfa.go:590-663 | and then all sessions of the user end, a factor is left, and nobody else is touched |
| MfaRuns.ChallengesBegin | internal/identity/mfa.go:119-179 | a challenge is made if and only if the user is registered and, to log in, has something to log in with or, to enrol, has recently authenticated |
| MfaRuns.ChallengesAreNew | internal/identity/mfa.go:119-179 | and then it is that user's, for that purpose, untried, and lasts five minutes |
| Mfa.EnsureRecoveryCodes | internal/identity/mfa.go:902-928 | the loop adds ten codes if none is unused |
| Mfa.ConsumeChallenge | internal/identity/mfa.go:826-834 | a challenge is consumed only if it is not yet, and not expired |
| Mfa.Service.BeginChallenge | internal/identity/mfa.go:119-179 | a login challenge is made only for users with a factor or an unused code, and offers exactly those they have; an enrolment challenge needs a recent authentication |
| Mfa.Service.ReserveAttempt | internal/identity/mfa.go:802-809 | an attempt is reserved only on an unconsumed challenge with fewer than five |
| Mfa.Service.CompleteTotp | internal/identity/mfa.go:836-865 | the challenge is consumed and a session opened, only while the user still has TOTP |
| Mfa.Service.CompleteRecovery | internal/identity/mfa.go:422-475 | code, challenge and session change together or not at all |
| Mfa.Service.CompletePasskey | internal/identity/mfa.go:496-550 | the same for a live passkey whose counter is in order |
| Mfa.Service.CompleteTotpEnrolment | internal/identity/mfa.go:236-291 | TOTP and recovery codes are stored with the challenge consumed, from a live session |
| Mfa.Service.CompletePasskeyEnrolment | internal/identity/mfa.go:327-403 | passkey and recovery codes are stored with the challenge consumed, from a live session |
| Mfa.Service.RemovePasskey | internal/identity/mfa.go:590-628 | the last factor cannot be removed, and removal ends all sessions |
| Mfa.Service.RemoveTotp | internal/identity/mfa.go:630-663 | TOTP can be removed only while a passkey is left |
| FileRuns.ReadyFilesAreIntact | internal/files/service.go:123-207 | however uploads and completions interleave, and wherever the process restarts, a ready file's stored bytes have the recorded size and digest, whether made by Initiate or by Upload |
| FileRuns.ReadyAtMostOnce | internal/files/service.go:349-396 | a file becomes ready at most once |
| FileRuns.ReadyIsFinal | internal/files/service.go:123-207 | once ready, neither a file's row nor its object changes |
| FileRuns.QuotaIsKept | internal/files/service.go:306-380 | however Initiate, Upload, PutContent and Complete interleave, on whatever ids, the sizes of a workspace's files never add up to more than its quota |
| FileRuns.ReadyFilesAreAsPromised | internal/files/service.go:90-207 | however calls interleave, on whatever ids, a ready file has the type its name promises, one of those allowed, and a size from one byte to the largest object |
| FileRuns.PutAsSteps | internal/files/service.go:123-161 | an uninterrupted upload is the composition of its steps |
| FileRuns.UploadAsSteps | internal/files/service.go:90-121 | an uninterrupted Upload is the composition of its steps |
| Files.Service.Initiate | internal/files/service.go:306-341 | a pending row is reserved if the sum of all rows leaves room for it |
| Files.Service.CompleteDb | internal/files/service.go:349-396 | a pending row becomes ready with size, type and digest of the content, if the quota allows it beside the other rows |
| Files.Service.PutContent | internal/files/service.go:123-161 | refused content fails the file, trouble with the temporary file or the store leaves it pending, otherwise it is stored and finalized |
| Files.Service.Upload | internal/files/service.go:90-121 | bad content is refused before a row is reserved; a store that refuses it fails the row, a temporary file that cannot be opened or closed leaves it pending, otherwise content is stored and finalized |
| Files.Service.Complete | internal/files/service.go:163-207 | what is in the store is finalized if it has the promised size and type, and otherwise fails the file |
| RateLimiter.AtMostTwiceTheLimit | internal/httpapi/rate_limit.go:36-68 | over any sequence of calls with a clock that does not fall, no source is admitted more than twice its limit in any closed interval of one window |
| RateLimiter.AtMostMaxSources | internal/httpapi/rate_limit.go:50-57 | the map never holds more than 4096 sources |
| RateLimiter.OnlyFullWindowsRefuse | internal/httpapi/rate_limit.go:36-68 | a call is refused only if its source was admitted as often as its limit in the window before, or, not being known, finds the map full of live windows |
| RateLimiter.RetryIsLeast | internal/httpapi/rate_limit.go:58-64 | the retry hint is the least number of whole seconds, at least one, after which the full window has run out |
| RateLimiter.RetryIsHonoured | internal/httpapi/rate_limit.go:36-76 | a caller who waits that long is refused again only by a later window or by a map full of live windows |
| RateLimiter.Limiter.Allow | internal/httpapi/rate_limit.go:36-68 | verdict and new windows of one call |
| RateLimiter.Limiter.RemoveExpired | internal/httpapi/rate_limit.go:70-76 | the loop removes exactly the windows that have run out |

## Left out

- JobQueue.Queue.Claim: how the engine compares and orders stored timestamps is a parameter, because the stored strings drop trailing zeros and do not sort exactly by time; the safety results hold for every choice.
- ItemGuarantees.FeedHasNoGaps: only for cursors at an event; the origin cursor "0" skips the existence check and reads the table from its start.
- ItemGuarantees.NeverAGapIffKeysRise: for imports of fewer than 1000 rows, because a larger one may push everything before it out of the table, and then its keys need not be above what is gone; ItemGuarantees.FeedAfterAnyRun decides those runs stage by stage.
- FileRuns.ReadyFilesAreIntact: for the local store, whose objects only these calls write.
- IdentityService.Service.CreateWorkspace: whether a second factor is needed, and the checks on name and locale, are parameters.
- Session and token rows in the identity model: the SCIM calls report whose are revoked, and nothing there reads them.
- Outbox.Deliverer.DeliverOne: the time of the next attempt, status codes and error texts of a delivery are not kept; the queue, not the delivery row, decides when the next attempt runs.
- Mfa.Service.BeginChallenge: the policy audit is not modelled.
- Audit rows, notifications, e-mail, profile, locale and display-name edits, and the password rules: independent of the tables modelled.
- Whether a privileged role may be taken up without a second factor, and the check that a token was issued for the workspace: the permission check is a set of permissions and a member's role.
- Hashing, encryption, TOTP arithmetic, WebAuthn and OpenID Connect: outcomes of checks are parameters.
- Signing and sending webhooks, SMTP and the S3 store: success or failure only; presigned uploads exist only there.
- Retention clean-up of events, records, challenges and sessions; clean-up of deliveries and jobs is a step of the outbox model.
- Deleting a workspace or a user inside the item, file, queue and second-factor models.
- Sniffing media types and parsing file names: a file carries the type its extension stands for, content the type it is sniffed as.
- The length and JSON checks on job input, and the size check on event data: callers here always pass them.
- HTTP handlers, web pages, command line, MCP adapter, JSON and CSV decoding, localization, SQL rebinding and migrations.
