# A verified model of the collaborative task service

The service keeps users, workspaces, memberships and tasks in MySQL. Members of a workspace change task status, claim
and release tasks and are removed from workspaces, all concurrently; three data migrations moved single-owner tasks into
workspaces; a Redis counter limits how often a client may call. This project models these parts in Dafny and proves the
guarantees they are built for, in every interleaving, on every database and on every request trace.

## How the model is organised

| files | what they hold |
|---|---|
| `Policies`, `Schema`, `Transactions` | permission predicates, the relational rows with their foreign keys, and the atomic specification of each use case (`AtomicStatus`, `AtomicAssign`, `AtomicRemove`, `Apply`) |
| `Promises` | what a caller of each service is promised, spelled out in roles, statuses and columns |
| `Services` | the services as methods of a session over its tables, branch by branch, each proved against the atomic specification and the promise |
| `Protocol` | any number of requests as small steps: unlocked access snapshot, one row lock at a time, re-read, decide, private write, commit or abort, under an arbitrary scheduler |
| `ProtocolInvariant`, `ProtocolSafety` | the inductive invariant; one commit or refusal against the atomic specification |
| `ProtocolRefinement` | whole runs against the atomic specification, and where the unlocked facts of a commit were read |
| `UnfinishedWork`, `OrphanExamples` | when unfinished work can belong to a non-member, in one step and over runs, with two concrete runs |
| `ColumnHistory` | over any run, every change of any column is the one the committing request asked for |
| `ProtocolHistory`, `ClaimRace`, `Revocation`, `ProtocolLiveness` | facts about whole runs: frozen assignees, claims, ownership, privileges, progress, revocation, deadlock freedom, termination |
| `MigrationTables`, `MigrationPromises`, `Backfill`, `BackfillDowngrade`, `GuardGap`, `GuardExamples`, `Contract`, `Cleanup` | the three data revisions over nullable columns with three-valued conditions; what they check and leave, column by column |
| `Migrations` | the three revisions end to end, forward and back |
| `RateLimiter`, `RateLimitKeys`, `LimiterChecks` | the Lua script on one key, the tight rate bound, the separation of keys, and the three checks built on them |
| `TaskListing` | filter, sort and paging against one canonical sequence |
| `Wrappers` | options, time and finite-set facts |

`dafny verify dfyconfig.toml` checks everything.

## Assumptions about the database and Redis

The model takes these as given; everything else is proved.

- A row lock is exclusive and held until commit or rollback. A locking read sees the latest committed row; a missing row
  leaves nothing to lock. Private writes become visible at commit, all at once.
- The ORM writes only columns that differ from what it loaded; an UPDATE that finds no row aborts the request, a DELETE
  that finds no row only warns and succeeds.
- The bulk unassign of a member removal visits the rows it selects in ascending id, one at a time, and locks only rows it
  changes. This is the most permissive reading: other requests may reopen tasks behind or before the scan.
- The access dependency (membership, role gate and task row) is one consistent unlocked read, after which anything may
  change. Later unlocked reads may see the same snapshot or a newer one, so both repeatable-read and read-committed
  isolation are covered. Any request may fail in the database before its commit (`Fail` events).
- Auto-increment ids are never handed out twice. User rows and workspace rows are never deleted by the API.
- Redis runs the script as one operation on a whole-second clock; a key is gone once its expiry is reached. A trace may
  lose the TTL of a live key at any time (`LoseTtl`).

## Where code and documentation differ

- `docs/architecture.md:164` promises that after a member removal no unfinished task points to a non-member.
  `update_task_status` does not re-check the assignee, so reopening a DONE task revives its historical assignee.
  `ReopenedTaskCanBeOrphan` gives an input where the assignee had left before; it depends on no assumption about locking.
  `ScanCanMissReopenedTask` gives a run where the assignee is still a member when the task is reopened, behind the scan of
  a removal in progress. That run needs the assumption above that the bulk UPDATE locks only rows it changes; under
  InnoDB's default REPEATABLE READ, scanned rows and gaps stay locked, and this second way is closed. `EventOrphansIff` is
  the exact condition for every event, `StatusOrphansIff` for one isolated status change, and `OrphanOnlyByReopening`
  says what happened in every run that ends in an orphan: a manager reopened the task for someone who had left or was
  being removed, and since then that assignee was never a settled member, no removal of that assignee started, and nobody
  reassigned the task. Work held throughout a removal is always cleared (`SteadyWorkIsCleared`).
- The backfill downgrade is documented to remove only unchanged data, and refuses with "task counts or identities
  changed". Its guard does not compare with the rows the backfill wrote: `!=` is unknown on NULL, status is compared with
  the current `completed`, and tasks only by number and largest id per user. `EditedDowngradeIff` says exactly which later
  databases it accepts, whatever happened to users, workspaces, memberships and tasks. `OnlyUnchangedIff` says exactly when
  an accepted database is unchanged: unless a mapped user was renamed together with the workspace, a task was created or
  deleted, or a row hides a change. A row hides a change if its creator, status or a timestamp is NULL, if `completed` and
  `status` were changed together, or if it has another owner (`GuardAcceptsIff`, `AcceptedRowChangedIff`). Two accepted
  databases without any NULL: one task's status moved along with `completed` (`DowngradeAcceptsMovedStatus`), and two tasks
  that changed places between users (`DowngradeAcceptsSwappedTasks`). Title, description and priority are not looked at.
- The limiter's comment speaks of "nearly twice the configured limit": `RateBound` proves `2 * limit - 1` per window
  length, and `RateBoundIsReached` that this is reached whenever a window has at least two seconds. With one-second
  windows nothing spills over (`OneSecondBound`).

## Model

| member | source | states |
|---|---|---|
| `ProtocolInvariant.RunKeepsInv` | app/services/task_service.py:260-300 | In every state of every run, the lock table is exactly what the requests hold, rows read under a lock are still the committed rows, guards of writes not yet committed still hold, and all foreign keys hold |
| `ProtocolInvariant.FireKeepsInv` | app/services/task_service.py:321-400 | Every single step, abort, database failure and commit of any request keeps that invariant for all requests |
| `ProtocolInvariant.CommitKeepsInv` | app/services/workspace_member_service.py:216-231 | A commit keeps what every other request has read or planned, because it writes only rows it has locked and rows with new ids |
| `ProtocolInvariant.Exclusive` | app/services/task_service.py:67-68 | No two requests ever hold the same row |
| `ProtocolInvariant.CommitFlagsWork` | app/services/workspace_member_service.py:197-201 | While a removal holds the membership row, every commit of another request flags any new work on that user |
| `ProtocolInvariant.NewWorkIsReopened` | app/services/task_service.py:331-346 | While a removal holds the membership row, new work on that user can only come from reopening a finished task; claims and assignments are shut out by the lock |
| `ProtocolInvariant.CommitConsistent` | app/services/task_service.py:353-358 | No commit breaks a foreign key or hands out a used id |
| `ProtocolRefinement.RunRefinesAtomic` | app/services/task_service.py:260-300 | In every run the committed store changes only at commits; each commit is one atomic, policy-checked use case on the store at that moment and writes exactly what its answer says; a removal misses only tasks a manager reopened while it held the membership row; the access role, and the plan of a role update or edit, were true of an earlier committed state of the run |
| `ProtocolRefinement.PlanWasRead` | app/services/workspace_member_service.py:163-180 | The write of a role update or an edit is exactly the difference between the request and a row committed earlier in the run on which its policy held; an unchanged success means there was none |
| `ProtocolRefinement.RoleWasRead` | app/dependencies.py:82-142 | The actor role a request goes by was committed when its access dependency ran, and at that moment the role gate, the task lookup and the first permission check passed |
| `ProtocolRefinement.RefusalsAreJustified` | app/services/task_service.py:266-283 | Every refusal decided on locked rows, before or after locking the task row, is the atomic refusal at that moment, or reports a membership that did not exist when its row was asked for earlier in the run |
| `ProtocolRefinement.UnlockedRefusalsAreJustified` | app/services/workspace_member_service.py:119-178 | Every other refusal (access, role gate, target user or member, owner conflict, edit and delete permission, taken name, vanished row) is true of the committed rows at that moment, for an access role that was committed when the access dependency ran |
| `ProtocolSafety.CommitIsAtomic` | app/services/task_service.py:321-397 | The step behind it, for all ten kinds of request: the guards that hold on the store a commit writes to, and the rows and columns it writes; only a commit that writes nothing leaves the store unchanged. The policy of an unchanged role update or edit, and the answer, are in the theorem on runs |
| `ProtocolSafety.RemovalIsAtomic` | app/services/workspace_member_service.py:191-231 | A row-by-row bulk unassign followed by the delete equals one atomic removal that spares only flagged tasks |
| `ProtocolSafety.RejectionIsAtomic` | app/services/workspace_member_service.py:197-214 | A refusal decided on locked memberships, at the task row, or on all locked rows is the refusal of the atomic use case on the store at that moment, unless it reports a membership whose row was not there to lock |
| `ProtocolSafety.OnlyCommitsWrite` | app/services/task_service.py:295-300 | Steps, aborts and failures leave every committed row as it was |
| `UnfinishedWork.OrphanOnlyByReopening` | app/services/task_service.py:270-290 | Starting without orphans, an unfinished task of a non-member exists only if a manager reopened it from DONE for someone who had left or was being removed, and since then that assignee was never a settled member, no removal of that assignee took the membership row, and the task was not reassigned |
| `UnfinishedWork.EventOrphansIff` | app/services/workspace_member_service.py:216-231 | An event makes a task an orphan if and only if it commits the reopening of a finished task of a non-member, or a removal that has not cleared an unfinished task of its target |
| `UnfinishedWork.MissedWasReopened` | app/services/workspace_member_service.py:197-229 | A task missed by a removal was reopened by a manager after the removal had taken the membership row |
| `UnfinishedWork.SteadyWorkIsCleared` | app/services/workspace_member_service.py:216-228 | Work the user holds from the moment the removal takes the membership row until it commits is always unassigned, whatever happened before |
| `UnfinishedWork.FlagHasReopen` | app/services/task_service.py:278-290 | Every flag goes back to one reopening by a manager, and its holder has not been a settled member since |
| `UnfinishedWork.RunKeepsOrphansFlagged` | app/services/workspace_member_service.py:197-229 | In every reachable state each unfinished task's assignee is a current member or the task is flagged, and a flagged task's assignee is no member or is being removed at that moment |
| `UnfinishedWork.StatusOrphansIff` | app/services/task_service.py:271-290 | One accepted status change by itself creates an orphan if and only if it moves a DONE task of a non-member to another status |
| `OrphanExamples.ReopenedTaskCanBeOrphan` | docs/architecture.md:164 | The unqualified promise is false: remove the assignee of a DONE task, then reopen it |
| `OrphanExamples.ScanCanMissReopenedTask` | docs/architecture.md:161-164 | If the bulk UPDATE locks only the rows it changes, it is also false while the assignee is a member: a run in which the task is reopened behind the scan of a removal that then commits |
| `ColumnHistory.TaskChange` | app/services/task_service.py:195-201 | At every event of every run: a task keeps its workspace, creator and creation time; title, description and priority change only at a commit of an edit that sent that value, status only to the value a committed status request asked for, the assignee only as a committed assignment or removal asked for; a changed row carries the commit's time |
| `ColumnHistory.TaskComesAndGoes` | app/services/task_service.py:152-160 | A new task is, column by column, what a committed creation asked for; one disappears only at a committed deletion in its workspace |
| `ColumnHistory.MembershipChange` | app/services/workspace_member_service.py:180-182 | A membership keeps its joining time; its role changes only at a committed update to that role |
| `ColumnHistory.MembershipComesAndGoes` | app/services/workspace_member_service.py:136-142 | A new membership is what a committed addition asked for or the OWNER of a workspace created with it; one disappears only at a committed removal of that member |
| `ColumnHistory.WorkspacesAndUsers` | app/services/workspace_service.py:29-41 | Workspaces and users never change; new ones are, column by column, what the committed request asked for |
| `ColumnHistory.CommitAchieves` | app/services/task_service.py:290-294 | Every success leaves the state its request asked for |
| `ColumnHistory.OriginNeverChanges` | app/models.py:187-299 | Over any run a task keeps its workspace, creator and creation time as long as it exists |
| `ColumnHistory.ChangedColumnWasSent` | app/services/task_service.py:195-201 | A title, description or priority that differs between two states of a run was sent by an edit of that task committed in between |
| `ColumnHistory.JoiningTimeNeverChanges` | app/services/workspace_member_service.py:180-182 | Over any run a membership keeps its joining time as long as it exists |
| `ProtocolHistory.DoneFreezesAssignee` | app/services/task_service.py:359-360 | While a task stays DONE its assignee is constant, across concurrent assign, claim, release and removal |
| `ProtocolHistory.FireFreezesDone` | app/services/workspace_member_service.py:216-222 | One event between two DONE states of a task keeps its assignee; the bulk unassign skips DONE rows |
| `ProtocolHistory.ClaimsAreSeparated` | app/services/task_service.py:361-388 | Between two successful claims of one task lies a committed release or change to nobody, or the removal of the holder |
| `ProtocolHistory.VacatedBetween` | app/policies.py:92-115 | A task that goes from assigned to unassigned was vacated by such a commit in between |
| `ProtocolHistory.SingleOwner` | app/services/workspace_service.py:28-47 | In every state of every run each API-created workspace has exactly one OWNER membership, and it is the creator's |
| `ProtocolHistory.OwnersNeverChange` | app/policies.py:4-37 | No run changes who owns an existing workspace or who is recorded as its creator, even with stale actor roles |
| `ProtocolHistory.PrivilegesStable` | app/dependencies.py:132-142 | As long as no OWNER of a workspace acts, its OWNER and ADMIN memberships never change, whatever others do |
| `ProtocolHistory.MemberProgressBound` | app/policies.py:73-85 | Members commit at most 2 * (1 + manager status changes) status changes of one task in any run |
| `ProtocolHistory.ProgressPotential` | app/policies.py:59-85 | The potential behind that bound: member changes plus the steps left to DONE never exceed it |
| `ProtocolHistory.RankNeverFalls` | app/services/task_service.py:278-290 | Between manager changes the status of a task only moves forward |
| `ClaimRace.ExactlyOneClaimWins` | app/services/task_service.py:361-373 | Any number of members claiming one unassigned unfinished task: exactly one wins and holds it, everyone else gets a conflict, unless the database fails all of them |
| `Revocation.RevokedNeverCommits` | docs/architecture.md:168-172 | A request that begins, or re-checks its membership under lock, after a committed removal of its actor and before a new addition never commits anything in that workspace |
| `Revocation.RemovedStaysOutside` | app/services/workspace_member_service.py:113-145 | Between a committed removal and a committed addition the user is no member in any state |
| `ProtocolLiveness.WaitsAboveHeld` | app/services/task_service.py:60-68 | A request only waits for a row above all rows it holds, in the order memberships by user id, then tasks by id |
| `ProtocolLiveness.SomeoneCanMove` | app/services/task_service.py:331-346 | Deadlock freedom: following blockers from any unfinished request ends at one that can move |
| `ProtocolLiveness.BlockerIsHigher` | app/services/workspace_member_service.py:197-229 | The wait-for graph climbs strictly in that order, so it has no cycle |
| `ProtocolLiveness.RunsAreBounded` | app/services/workspace_member_service.py:216-231 | No schedule is longer than a bound computed from the initial state |
| `ProtocolLiveness.MaximalRunsFinish` | app/services/task_service.py:295-300 | A run that cannot go on has answered every request and released every lock |
| `Transactions.ChangeIffMayReassign` | app/services/task_service.py:349-388 | The nested branches write exactly when the declarative rule permits: unfinished, a real change, and either a manager naming a member or nobody, or a member claiming or releasing for itself |
| `Transactions.SelfRemovalIsRefused` | app/services/workspace_member_service.py:197-214 | Nobody can remove themselves, whatever role the access dependency had read: the locking read refreshes the actor's own membership, and no role may remove its equal |
| `Promises.MemberFinishesTask` | app/policies.py:73-85 | The two steps of a member's task are both accepted: whoever is assigned a TODO task can start and then finish it, so the bound on member progress is reached |
| `Promises.AtomicStatusKeepsPromise` | app/services/task_service.py:260-294 | The atomic status change answers, in roles and pairs of statuses, as promised: which requests succeed, each error's exact condition, and every column and table it leaves |
| `Promises.AtomicAssignKeepsPromise` | app/services/task_service.py:321-394 | The same for assign, claim and release |
| `Promises.AtomicRemoveKeepsPromise` | app/services/workspace_member_service.py:196-231 | The same for member removal, for every task row and every other membership |
| `Services.Session.UpdateTaskStatus` | app/services/task_service.py:251-308 | All branches and their order: the atomic specification's answer and store, and the spelled-out promise: succeeds exactly for managers, and for the assigned member on the same status or one step forward; only status and update time change |
| `Services.Session.UpdateTaskAssignee` | app/services/task_service.py:311-400 | The same for assign, claim and release, with both role checks and the exact condition of every error; only assignee and update time change |
| `Services.Session.RemoveMember` | app/services/workspace_member_service.py:191-237 | The same for removal, with the refreshed role when actor and target are the same; exactly that membership goes, exactly the user's unfinished tasks there lose their assignee, and no other column, row or table differs |
| `Services.Session.UpdateMemberRole` | app/services/workspace_member_service.py:157-188 | Each error's exact condition in roles; the new role with the joining time kept and everything else as before; ownership of every workspace stays the same |
| `Services.Session.AddMember` | app/services/workspace_member_service.py:113-154 | Which roles may add which, each error's exact condition, every column of the new membership of the user with that name, and nothing else differs |
| `Services.Session.CreateWorkspace` | app/services/workspace_service.py:23-50 | The next id; every column of the workspace and of its one OWNER membership, which appear together; nothing else differs, and sole ownership elsewhere is kept |
| `Services.Session.CreateTask` | app/services/task_service.py:147-178 | The next id and every column of the new task; nothing else differs and the database stays consistent |
| `Services.Session.UpdateTask` | app/services/task_service.py:181-218 | Permitted exactly for managers and the creator; sent columns take the sent values, all others stay, and the update time moves only on a difference |
| `Services.Session.LockWorkspaceMemberships` | app/services/task_service.py:55-70 | Exactly the asked-for users that are members are found, each with the membership committed for this workspace |
| `Services.Session.DeleteTask` | app/services/task_service.py:221-242 | Permitted exactly for managers and the creator; that row goes, every other row and the id counter stay, all foreign keys and all sole ownerships are kept |
| `Backfill.ValidateUpgrade` | alembic/versions/c1e8d5a4b762_backfill_personal_workspaces_and_tasks.py:104-271 | The counting queries accept if and only if the pointwise facts hold, spelled out per user and per task row, and earlier workspaces have exactly the rows and memberships read before the loop |
| `Backfill.UserCountsMeanTotal` | alembic/versions/c1e8d5a4b762_backfill_personal_workspaces_and_tasks.py:109-129 | Equal counts and no unmapped user mean the map covers exactly the users |
| `Backfill.WorkspaceCountsMeanPersonal` | alembic/versions/c1e8d5a4b762_backfill_personal_workspaces_and_tasks.py:131-175 | The three join counts equal the map's size exactly when every mapped workspace has the right creator and its user, as OWNER, as only member |
| `Backfill.MembershipCountsMeanSoleOwner` | alembic/versions/c1e8d5a4b762_backfill_personal_workspaces_and_tasks.py:145-175 | The pigeonhole step: as many memberships as owners means no other members |
| `Backfill.TaskCountsMeanBackfilled` | alembic/versions/c1e8d5a4b762_backfill_personal_workspaces_and_tasks.py:198-237 | No defective row and a full join mean every task row is backfilled and lies in its owner's mapped workspace |
| `Backfill.DefectIff` | alembic/versions/c1e8d5a4b762_backfill_personal_workspaces_and_tasks.py:202-214 | Under three-valued logic the long OR holds exactly for rows that are not correctly backfilled |
| `Backfill.FactsMakeBijection` | alembic/versions/c1e8d5a4b762_backfill_personal_workspaces_and_tasks.py:219-237 | The map is a bijection, and a user's owned tasks are exactly the tasks of the mapped workspace |
| `Backfill.Upgrade` | alembic/versions/c1e8d5a4b762_backfill_personal_workspaces_and_tasks.py:274-370 | Succeeds on every foreign-key-consistent database with an empty map and passes its own validation; every column of every new and old row is stated, with the literal workspace name; otherwise nothing changes |
| `Backfill.WrittenKeepsPromise` | alembic/versions/c1e8d5a4b762_backfill_personal_workspaces_and_tasks.py:306-364 | The same for what any successful backfill leaves: names, times, counts, largest ids, owners, statuses, and all earlier rows untouched |
| `Backfill.BackfillOneUser` | alembic/versions/c1e8d5a4b762_backfill_personal_workspaces_and_tasks.py:306-364 | One pass of the loop statement by statement violates no constraint and has exactly the specified effect |
| `Backfill.BackfillUsers` | alembic/versions/c1e8d5a4b762_backfill_personal_workspaces_and_tasks.py:302-364 | The loop over the users in order, for any number of users |
| `Backfill.BackfillAllWorks` | alembic/versions/c1e8d5a4b762_backfill_personal_workspaces_and_tasks.py:306-364 | After any prefix of users: new ids only, earlier rows untouched, map rows and task rows as specified |
| `Backfill.BackfillAllMetadata` | alembic/versions/c1e8d5a4b762_backfill_personal_workspaces_and_tasks.py:177-196 | Recorded counts and maximal ids stay right while later users are processed |
| `Backfill.BackfilledPassesValidation` | alembic/versions/c1e8d5a4b762_backfill_personal_workspaces_and_tasks.py:366-370 | Every state the loop can leave satisfies everything the validation checks |
| `Backfill.GeneratedNameFits` | alembic/versions/c1e8d5a4b762_backfill_personal_workspaces_and_tasks.py:81-82 | Every generated name fits the column and, trimmed, its CHECK |
| `BackfillDowngrade.ValidateDowngrade` | alembic/versions/c1e8d5a4b762_backfill_personal_workspaces_and_tasks.py:373-468 | Accepts if and only if every mapping passes the guard, spelled out in the columns of its user, workspace, membership and tasks |
| `BackfillDowngrade.CheckMapping` | alembic/versions/c1e8d5a4b762_backfill_personal_workspaces_and_tasks.py:381-466 | One mapping: all six checks in order decide exactly that |
| `BackfillDowngrade.OwnedIsWorkspace` | alembic/versions/c1e8d5a4b762_backfill_personal_workspaces_and_tasks.py:418-466 | Equal counts and containment make a user's tasks exactly the workspace's tasks |
| `BackfillDowngrade.NothingRefers` | alembic/versions/c1e8d5a4b762_backfill_personal_workspaces_and_tasks.py:495-511 | When a generated workspace is deleted no task, membership or map row refers to it any more |
| `BackfillDowngrade.Downgrade` | alembic/versions/c1e8d5a4b762_backfill_personal_workspaces_and_tasks.py:471-511 | Refused without a write, or exactly the mapped workspaces go with all their memberships, exactly their tasks lose the new columns, every other column and row stays, and every RESTRICT key is respected at every delete |
| `BackfillDowngrade.DowngradeKeepsForeignKeys` | alembic/versions/c1e8d5a4b762_backfill_personal_workspaces_and_tasks.py:478-511 | No row left behind refers to a deleted one |
| `BackfillDowngrade.UpgradeThenDowngrade` | alembic/versions/c1e8d5a4b762_backfill_personal_workspaces_and_tasks.py:274-511 | After any upgrade the downgrade is accepted and restores users, tasks, workspaces, memberships and the empty map exactly |
| `GuardGap.GuardAcceptsIff` | alembic/versions/c1e8d5a4b762_backfill_personal_workspaces_and_tasks.py:448-462 | Against the row the backfill wrote, in whichever generated workspace the row now lies: exactly which rows the guard accepts, and that it accepts a change of a generated column exactly if one of four columns is NULL, `completed` and `status` were changed together, or the owner changed |
| `GuardGap.EditedDowngradeIff` | alembic/versions/c1e8d5a4b762_backfill_personal_workspaces_and_tasks.py:373-468 | For any database after a backfill that still has the map: the whole guard accepts if and only if generated workspaces (but for a new username) and memberships are as written, every mapped user owns as many tasks with the same largest id, and every task of a mapped user or workspace lies in its owner's workspace and fits there |
| `GuardGap.TaskEditsDowngradeIff` | alembic/versions/c1e8d5a4b762_backfill_personal_workspaces_and_tasks.py:418-466 | For arbitrary edits of the task table, including moved, created and deleted tasks, the numbers and the rows alone decide |
| `GuardGap.AcceptedRowChangedIff` | alembic/versions/c1e8d5a4b762_backfill_personal_workspaces_and_tasks.py:442-466 | In an accepted database a row differs in a generated column from what the backfill wrote exactly if it has such a NULL, such a joint change, or another owner |
| `GuardGap.RenameIsRefused` | alembic/versions/c1e8d5a4b762_backfill_personal_workspaces_and_tasks.py:386-400 | A backfilled database in which a mapped user was renamed, but not the workspace, is refused, whatever else changed |
| `GuardGap.OnlyUnchangedIff` | alembic/versions/c1e8d5a4b762_backfill_personal_workspaces_and_tasks.py:471-476 | An accepted downgrade removes unchanged data only if and only if no mapped user was renamed, no task was created or deleted, and no row hides a change |
| `GuardExamples.DowngradeAcceptsMovedStatus` | alembic/versions/c1e8d5a4b762_backfill_personal_workspaces_and_tasks.py:442-463 | A whole database that is accepted although a generated status changed, without any NULL |
| `GuardExamples.DowngradeAcceptsSwappedTasks` | alembic/versions/c1e8d5a4b762_backfill_personal_workspaces_and_tasks.py:418-440 | A whole database that is accepted although two tasks changed owner, creator and workspace, without any NULL and with `completed` and `status` as written |
| `BackfillDowngrade.GuardDefectIff` | alembic/versions/c1e8d5a4b762_backfill_personal_workspaces_and_tasks.py:448-462 | Under three-valued logic the OR of the guard is not true exactly for rows that match their own owner and `completed`, or are NULL where they are compared |
| `BackfillDowngrade.GuardMissesNull` | alembic/versions/c1e8d5a4b762_backfill_personal_workspaces_and_tasks.py:452-461 | Setting the status of an accepted row to NULL is a change the guard does not see |
| `Contract.ValidateUpgrade` | alembic/versions/d4b6e8f1a203_finalize_collaborative_tasks.py:94-206 | The queries accept if and only if the map is complete with owners and every task can lose its legacy columns, spelled out per row with trimmed titles of 1 to 100 characters and priorities 1 to 5 |
| `MigrationPromises.TrimmedFitsIff` | alembic/versions/d4b6e8f1a203_finalize_collaborative_tasks.py:153-156 | The trimmed-length check in terms of the string: a part of 1 to 100 characters with spaces only around it |
| `Contract.ContractDefectIff` | alembic/versions/d4b6e8f1a203_finalize_collaborative_tasks.py:142-158 | The eleven-way OR holds exactly for rows that cannot |
| `Contract.Upgrade` | alembic/versions/d4b6e8f1a203_finalize_collaborative_tasks.py:209-272 | Refused without a change, or exactly the two columns go and every other column and table stays |
| `Contract.Downgrade` | alembic/versions/d4b6e8f1a203_finalize_collaborative_tasks.py:292-337 | Accepted exactly when creator and status are set; then the owner is the creator, `completed` is true exactly for DONE and otherwise false, every other column and table stays, and the second check never fails |
| `Contract.ContractRoundTrip` | alembic/versions/d4b6e8f1a203_finalize_collaborative_tasks.py:308-323 | Dropping and rebuilding the legacy columns is the identity on every accepted database |
| `Contract.StatusEditsReupgradeIff` | alembic/versions/d4b6e8f1a203_finalize_collaborative_tasks.py:293 | After arbitrary status edits, downgrade and re-upgrade pass if and only if no task is IN_PROGRESS |
| `Contract.ReupgradeIff` | alembic/versions/d4b6e8f1a203_finalize_collaborative_tasks.py:138-204 | The same for any final database: also every task must still lie in its creator's mapped workspace |
| `Contract.ContractAfterBackfillIff` | alembic/versions/d4b6e8f1a203_finalize_collaborative_tasks.py:153-157 | Straight after a backfill the contract accepts exactly if all titles and priorities meet the new checks |
| `Cleanup.ValidateMappingData` | alembic/versions/e5a1c7d9b302_retire_task_collaboration_migration_map.py:322-381 | Accepts if and only if the map is injective and each mapped workspace exists with its user as creator and OWNER, spelled out per row |
| `Cleanup.NoDuplicatesIff` | alembic/versions/e5a1c7d9b302_retire_task_collaboration_migration_map.py:308-326 | The GROUP BY query finds nothing exactly when no two users share a workspace |
| `Cleanup.ValidateTaskData` | alembic/versions/e5a1c7d9b302_retire_task_collaboration_migration_map.py:384-443 | Accepts if and only if all required columns are set and workspace, creator and assignee exist, spelled out per row |
| `Cleanup.Upgrade` | alembic/versions/e5a1c7d9b302_retire_task_collaboration_migration_map.py:446-458 | Drops the map and nothing else, exactly when all checks pass |
| `Cleanup.CleanupAcceptsReachable` | alembic/versions/e5a1c7d9b302_retire_task_collaboration_migration_map.py:446-451 | After an accepted backfill and contract and any run of any API requests, both data checks succeed |
| `Cleanup.MappingStaysValid` | alembic/versions/e5a1c7d9b302_retire_task_collaboration_migration_map.py:350-381 | What the backfill established for a mapped user still holds in every state the API reaches |
| `Cleanup.MigratedIsConsistent` | app/models.py:187-299 | A finalized database is a consistent starting state for the API |
| `Cleanup.PersonalWorkspaceStaysOwned` | app/services/workspace_member_service.py:170-214 | From a migrated database on, each user's personal workspace has that user as creator and only OWNER in every state of every run |
| `Cleanup.MigratedOrphanOnlyByReopening` | app/services/task_service.py:270-290 | From a migrated database on, the same holds without assuming that there are no orphans at the start |
| `Migrations.ForwardChain` | alembic/versions/d4b6e8f1a203_finalize_collaborative_tasks.py:209-272 | From any constraint-abiding database with an empty map and valid titles and priorities: the backfilled database passes the contract, is the API's start, and after any run of any requests passes the cleanup's data checks |
| `Migrations.FullWayBack` | alembic/versions/d4b6e8f1a203_finalize_collaborative_tasks.py:292-337 | Backfill, contract, contract downgrade and backfill downgrade are all accepted and end in the database before, but for the id counter |
| `Migrations.ContractAccepts` | alembic/versions/d4b6e8f1a203_finalize_collaborative_tasks.py:138-204 | After a backfill of any such database the contract accepts exactly if the old titles and priorities meet the new checks |
| `Migrations.BackfilledIsEnforced` | alembic/versions/c1e8d5a4b762_backfill_personal_workspaces_and_tasks.py:320-364 | The backfilled database meets every foreign key, the map's unique key and the counters |
| `RateLimiter.Redis.FixedWindow` | app/rate_limiter.py:21-29 | INCR, TTL, EXPIRE and the TTL repair: no other key changes; a running window counts one more and keeps its end, a lost TTL is set anew, otherwise a new window starts; the TTL returned is at least one second |
| `RateLimiter.Redis.CheckKey` | app/rate_limiter.py:65-86 | The decision, what remains, and that the retry time points at the end of the window |
| `RateLimiter.RateBound` | app/rate_limiter.py:18-29 | In every trace, including lost and repaired TTLs, any interval of k windows lets through at most (k + 1) * limit - 1 requests |
| `RateLimiter.RateBoundIsReached` | app/rate_limiter.py:18-20 | Some trace reaches that number, for every limit, every k and every window of at least two seconds |
| `RateLimiter.OneSecondBound` | app/rate_limiter.py:21-29 | With one-second windows k seconds let through at most k * limit |
| `RateLimiter.StepPaysUp` | app/rate_limiter.py:22-27 | Each request allowed is paid for by the running window's quota or by a new window |
| `RateLimiter.RetryAfterIsExact` | app/rate_limiter.py:78-86 | After a rejection the next request is allowed exactly when the retry time has passed, whatever is tried in between |
| `RateLimitKeys.WriteKeysIsolated` | app/rate_limiter.py:115-129 | Two write requests share a counter exactly when user, scope and workspace agree |
| `RateLimitKeys.KeyPrefix` | app/rate_limiter.py:61-63 | The configured prefix without the separators at its end, and nothing else removed |
| `RateLimitKeys.AddressKeyFormats` | app/rate_limiter.py:94-108 | The format of login and registration keys on concrete values |
| `RateLimitKeys.WorkspaceKeyFormat` | app/rate_limiter.py:122-124 | The format of a write key with a workspace on concrete values |
| `RateLimitKeys.LoginKeysIsolated` | app/rate_limiter.py:94-98 | Two login attempts share a counter exactly when address and username digests agree |
| `RateLimitKeys.RegistrationKeysIsolated` | app/rate_limiter.py:106-108 | Two registrations share a counter exactly when the address digests agree |
| `LimiterChecks.Limiter.CheckLogin` | app/rate_limiter.py:88-103 | Counts this address and username and decides on that counter; the counter of every other pair stays |
| `LimiterChecks.Limiter.CheckRegistration` | app/rate_limiter.py:105-113 | The same per address |
| `LimiterChecks.Limiter.CheckWrite` | app/rate_limiter.py:115-129 | The same per user, scope and workspace |
| `RateLimitKeys.KindsIsolated` | app/rate_limiter.py:95-124 | Login, registration and write counters never coincide |
| `RateLimitKeys.DecimalInjective` | app/rate_limiter.py:122-124 | Different ids never print alike |
| `TaskListing.ListTasks` | app/services/task_service.py:92-140 | The page equals the slice of the canonical sequence, whatever order the database uses for ties; spelled out in the task's columns: every item matches, items are ordered by the requested column and then the id, the k-th item has exactly offset + k matching tasks before it, and `total` counts them all |
| `TaskListing.SqlSortedIsCanonical` | app/services/task_service.py:118-127 | A result is correctly sorted by the collected expressions exactly when it is the canonical sequence: the id tie-break leaves one order |
| `TaskListing.AllPagesListEverything` | app/services/task_service.py:129-140 | Consecutive pages over an unchanged store give each matching task exactly once, in order, `total` in all |
| `TaskListing.PagesCover` | app/services/task_service.py:133-134 | Concatenated pages are the sequence from the first offset on, for every offset and limit |
| `TaskListing.DescendingReversesAscending` | app/services/task_service.py:119-127 | `desc` is the exact reverse of `asc` |
| `TaskListing.SelectedIsMatching` | app/services/task_service.py:97-105 | The appended conditions select exactly what the query parameters mean |

## Left out

- HTTP routing, request parsing, response building, logging and OpenAPI; value ranges of requests are not re-checked here.
- JWT, Argon2 and SHA-256: a request's actor is a user id, and digests in rate-limit keys are strings without a colon.
- Username normalisation for the login key (NFKC, strip, casefold).
- InnoDB gap locks, index-scan locking, foreign-key shared locks and lock timeouts; a timeout or detected deadlock is a `Fail` event of the request.
- The split of the access dependency into several queries; it is one consistent read here.
- ORM identity-map details beyond writing changed columns only and the refresh of the actor's own membership by a self-removal; an unlocked target read may see newer rows here than in the source. `updated_at` is one clock value per commit.
- Redis connections, fail-open and fail-closed branches, flush, restart, sub-second TTL rounding, and decisions with a window of zero.
- DDL and the schema-shape checks of the cleanup revision; they enter `Cleanup.Upgrade` as one Boolean. A dropped column reads as NULL.
- The `status NOT IN (...)` conditions of the migrations: status is an enumeration here, so they never hold.
- MySQL's collation of names and the width of columns other than `username` and the workspace name.
- Member and workspace listings and single-row reads: no property beyond reading their bodies.
- Registration is a protocol step that adds a user with a new name; its request limits and password rules are not modelled.
- The `AddMember` request of the protocol carries the target's user id, since a username never changes its user; the lookup by name is in the session method.
- ProtocolSafety.CommitIsAtomic: for the requests without locking reads the actor's role is the one from the access snapshot, because the services trust it (docs/architecture.md:168-172), and the rows a role update or edit was decided on may have changed by its commit; `ProtocolRefinement.RunRefinesAtomic` ties both to an earlier state of the run.
- ProtocolSafety.RemovalIsAtomic: spares flagged tasks; that these were reopened while the removal held the membership row is a fact about runs, in `ProtocolRefinement.RunRefinesAtomic`.
- GuardGap.EditedDowngradeIff: edits of the mapping table itself are not covered; nothing in the repository updates it.
- RateLimiter.RateBoundIsReached: stated for windows of at least two seconds, because a one-second window cannot reach it on a whole-second clock.
