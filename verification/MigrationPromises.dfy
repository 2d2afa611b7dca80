/** What the three data revisions check and leave behind, spelled out in the columns of every table. */
module MigrationPromises {
  import opened Wrappers
  import opened Policies
  import opened Schema
  import opened MigrationTables

  // ---------------------------------------------------------------- rows

  predicate LegacyKept(a: TaskRow, b: TaskRow) {
    && b.title == a.title && b.description == a.description && b.priority == a.priority
    && b.completed == a.completed && b.ownerId == a.ownerId
  }

  predicate NewColumnsKept(a: TaskRow, b: TaskRow) {
    && b.workspaceId == a.workspaceId && b.creatorId == a.creatorId && b.assigneeId == a.assigneeId
    && b.status == a.status && b.createdAt == a.createdAt && b.updatedAt == a.updatedAt
  }

  predicate NewColumnsEmpty(b: TaskRow) {
    && b.workspaceId == None && b.creatorId == None && b.assigneeId == None
    && b.status == None && b.createdAt == None && b.updatedAt == None
  }

  predicate StatusMatches(completed: Option<bool>, status: Option<Status>) {
    (completed == Some(true) && status == Some(Done)) || (completed == Some(false) && status == Some(Todo))
  }

  /** A substring of 1 to 100 characters with spaces only around it, and none at its ends. */
  ghost predicate TitleFits(s: string) {
    exists i: nat, j: nat :: TrimmedAt(s, i, j) && 1 <= j - i <= 100
  }

  predicate TrimmedAt(s: string, i: nat, j: nat) {
    && i < j <= |s| && s[i] != ' ' && s[j - 1] != ' '
    && (forall k :: 0 <= k < i ==> s[k] == ' ') && (forall k :: j <= k < |s| ==> s[k] == ' ')
  }

  /** `x` is MAX(id) over these ids: NULL when there are none. */
  predicate IsMaxId(x: Option<TaskId>, ids: set<TaskId>) {
    match x
    case None => ids == {}
    case Some(m) => m in ids && forall id :: id in ids ==> id <= m
  }

  function TasksOwnedBy(db: Tables, u: UserId): set<TaskId> {
    set id | id in db.tasks && db.tasks[id].ownerId == Some(u)
  }

  function TasksLyingIn(db: Tables, ws: WorkspaceId): set<TaskId> {
    set id | id in db.tasks && db.tasks[id].workspaceId == Some(ws)
  }

  // ---------------------------------------------------------------- backfill

  /** One user before and after the backfill. */
  ghost predicate UserUpgraded(before: Tables, db: Tables, u: UserId, now: Time)
    requires u in before.users && u in db.wmap
  {
    var m := db.wmap[u];
    var key := MemberKey(m.workspaceId, u);
    && m.workspaceId !in before.workspaces && m.workspaceId in db.workspaces
    && db.workspaces[m.workspaceId].name == "Personal Workspace - " + before.users[u]
    && db.workspaces[m.workspaceId].createdById == u
    && db.workspaces[m.workspaceId].createdAt == now && db.workspaces[m.workspaceId].updatedAt == now
    && key in db.members && db.members[key].role == Owner
    && db.members[key].joinedAt == now && db.members[key].updatedAt == now
    && m.migratedAt == now && m.legacyTaskCount == |TasksOwnedBy(before, u)|
    && IsMaxId(m.legacyTaskMaxId, TasksOwnedBy(before, u))
  }

  /** One task before and after the backfill. */
  predicate TaskUpgraded(db: Tables, a: TaskRow, b: TaskRow, now: Time) {
    && LegacyKept(a, b) && a.ownerId.Some? && a.ownerId.value in db.wmap
    && b.workspaceId == Some(db.wmap[a.ownerId.value].workspaceId)
    && b.creatorId == a.ownerId && b.assigneeId == None && StatusMatches(a.completed, b.status)
    && b.createdAt == Some(now) && b.updatedAt == Some(now)
  }

  /** The backfill's `upgrade`. */
  ghost predicate UpgradePromise(before: Tables, db: Tables, now: Time) {
    && db.users == before.users && db.wmap.Keys == before.users.Keys
    && (forall u :: u in db.wmap ==> UserUpgraded(before, db, u, now))
    && (forall u, v :: u in db.wmap && v in db.wmap && db.wmap[u].workspaceId == db.wmap[v].workspaceId ==> u == v)
    && (forall w :: w in before.workspaces ==> w in db.workspaces && db.workspaces[w] == before.workspaces[w])
    && (forall w :: w in db.workspaces && w !in before.workspaces ==> Mapped(db, w))
    && (forall k :: k in before.members ==> k in db.members && db.members[k] == before.members[k])
    && (forall k :: k in db.members && k !in before.members ==>
          k.userId in db.wmap && k.workspaceId == db.wmap[k.userId].workspaceId)
    && db.tasks.Keys == before.tasks.Keys
    && (forall id :: id in before.tasks ==> TaskUpgraded(db, before.tasks[id], db.tasks[id], now))
  }

  ghost predicate Mapped(db: Tables, ws: WorkspaceId) {
    exists u :: u in db.wmap && db.wmap[u].workspaceId == ws
  }

  /** What `_validate_upgrade` checks of one mapped user. */
  ghost predicate MappingUpgraded(db: Tables, u: UserId)
    requires u in db.wmap
  {
    var m := db.wmap[u];
    var key := MemberKey(m.workspaceId, u);
    && m.workspaceId in db.workspaces && db.workspaces[m.workspaceId].createdById == u
    && key in db.members && db.members[key].role == Owner
    && (forall k :: k in db.members && k.workspaceId == m.workspaceId ==> k.userId == u)
    && |TasksOwnedBy(db, u)| == m.legacyTaskCount && IsMaxId(m.legacyTaskMaxId, TasksOwnedBy(db, u))
  }

  predicate RowUpgraded(db: Tables, row: TaskRow) {
    && row.ownerId.Some? && row.ownerId.value in db.wmap
    && row.workspaceId == Some(db.wmap[row.ownerId.value].workspaceId)
    && row.creatorId == row.ownerId && row.assigneeId == None && StatusMatches(row.completed, row.status)
    && row.createdAt != None && row.updatedAt != None
  }

  /** `_validate_upgrade`: the backfilled facts, and the earlier workspaces with exactly their memberships. */
  ghost predicate UpgradeChecks(db: Tables, workspaces: map<WorkspaceId, Workspace>,
                                members: map<MemberKey, Membership>) {
    && db.wmap.Keys == db.users.Keys
    && (forall u :: u in db.wmap ==> MappingUpgraded(db, u))
    && (forall id :: id in db.tasks ==> RowUpgraded(db, db.tasks[id]))
    && (forall w :: w in workspaces ==> w in db.workspaces && db.workspaces[w] == workspaces[w])
    && (forall k :: k in members ==> k.workspaceId in workspaces && k in db.members && db.members[k] == members[k])
    && (forall k :: k in db.members && k.workspaceId in workspaces ==> k in members)
  }

  // ---------------------------------------------------------------- backfill downgrade

  /** What the downgrade guard checks of one row of the generated workspace of `u`. */
  predicate RowGuarded(row: TaskRow, u: UserId, at: Time) {
    && row.ownerId == Some(u) && row.assigneeId == None
    && (row.creatorId == None || row.creatorId == Some(u))
    && (row.status == None || row.status == Some(if row.completed == Some(true) then Done else Todo))
    && (row.createdAt == None || row.createdAt == Some(at))
    && (row.updatedAt == None || row.updatedAt == Some(at))
  }

  /** What it checks of one mapping. */
  ghost predicate MappingGuarded(db: Tables, u: UserId)
    requires u in db.wmap
  {
    var m := db.wmap[u];
    var key := MemberKey(m.workspaceId, u);
    && u in db.users && m.workspaceId in db.workspaces
    && db.workspaces[m.workspaceId].name == "Personal Workspace - " + db.users[u]
    && db.workspaces[m.workspaceId].createdById == u
    && db.workspaces[m.workspaceId].createdAt == m.migratedAt && db.workspaces[m.workspaceId].updatedAt == m.migratedAt
    && key in db.members && db.members[key].role == Owner
    && db.members[key].joinedAt == m.migratedAt && db.members[key].updatedAt == m.migratedAt
    && (forall k :: k in db.members && k.workspaceId == m.workspaceId ==> k.userId == u)
    && |TasksOwnedBy(db, u)| == m.legacyTaskCount && |TasksLyingIn(db, m.workspaceId)| == m.legacyTaskCount
    && IsMaxId(m.legacyTaskMaxId, TasksOwnedBy(db, u))
    && (forall id :: id in db.tasks && db.tasks[id].workspaceId == Some(m.workspaceId) ==>
          RowGuarded(db.tasks[id], u, m.migratedAt))
  }

  ghost predicate DowngradeChecks(db: Tables) {
    forall u :: u in db.wmap ==> MappingGuarded(db, u)
  }

  /** The task lies in a mapped workspace. */
  ghost predicate LiesInMapped(db: Tables, row: TaskRow) {
    row.workspaceId.Some? && Mapped(db, row.workspaceId.value)
  }

  /** The backfill's `downgrade`: the mapped workspaces go with all their memberships, their tasks lose the new columns,
      and everything else stays. */
  ghost predicate DowngradePromise(before: Tables, db: Tables) {
    && db.users == before.users && db.wmap == map[] && db.nextWorkspaceId == before.nextWorkspaceId
    && (forall w :: w in db.workspaces <==> w in before.workspaces && !Mapped(before, w))
    && (forall w :: w in db.workspaces ==> w in before.workspaces && db.workspaces[w] == before.workspaces[w])
    && (forall k :: k in db.members <==> k in before.members && !Mapped(before, k.workspaceId))
    && (forall k :: k in db.members ==> k in before.members && db.members[k] == before.members[k])
    && db.tasks.Keys == before.tasks.Keys
    && (forall id :: id in before.tasks ==> TaskDowngraded(before, before.tasks[id], db.tasks[id]))
  }

  ghost predicate TaskDowngraded(before: Tables, a: TaskRow, b: TaskRow) {
    && LegacyKept(a, b)
    && if LiesInMapped(before, a) then NewColumnsEmpty(b) else NewColumnsKept(a, b)
  }

  // ---------------------------------------------------------------- contract

  predicate OtherTablesKept(before: Tables, db: Tables) {
    && db.users == before.users && db.workspaces == before.workspaces && db.members == before.members
    && db.wmap == before.wmap && db.nextWorkspaceId == before.nextWorkspaceId && db.tasks.Keys == before.tasks.Keys
  }

  ghost predicate RowContractable(db: Tables, row: TaskRow) {
    && row.ownerId.Some? && row.ownerId.value in db.wmap && row.ownerId.value in db.users
    && row.workspaceId == Some(db.wmap[row.ownerId.value].workspaceId)
    && row.workspaceId.value in db.workspaces
    && row.creatorId == row.ownerId && StatusMatches(row.completed, row.status)
    && row.createdAt != None && row.updatedAt != None
    && TitleFits(row.title) && 1 <= row.priority && row.priority <= 5
  }

  /** The contract's `_validate_upgrade`. */
  ghost predicate ContractChecks(db: Tables) {
    && db.wmap.Keys == db.users.Keys
    && (forall u :: u in db.wmap ==>
          MemberKey(db.wmap[u].workspaceId, u) in db.members
          && db.members[MemberKey(db.wmap[u].workspaceId, u)].role == Owner)
    && (forall id :: id in db.tasks ==> RowContractable(db, db.tasks[id]))
  }

  /** The contract's `upgrade`: the two legacy columns are gone, nothing else differs. */
  ghost predicate ContractPromise(before: Tables, db: Tables) {
    && OtherTablesKept(before, db)
    && forall id :: id in db.tasks ==> ColumnsDropped(before.tasks[id], db.tasks[id])
  }

  predicate ColumnsDropped(a: TaskRow, b: TaskRow) {
    && b.title == a.title && b.description == a.description && b.priority == a.priority && NewColumnsKept(a, b)
    && b.ownerId == None && b.completed == None
  }

  /** The contract's `downgrade`: the owner is the creator, and only DONE counts as completed. */
  ghost predicate RebuildPromise(before: Tables, db: Tables) {
    && OtherTablesKept(before, db)
    && forall id :: id in db.tasks ==> ColumnsRebuilt(before.tasks[id], db.tasks[id])
  }

  predicate ColumnsRebuilt(a: TaskRow, b: TaskRow) {
    && b.title == a.title && b.description == a.description && b.priority == a.priority && NewColumnsKept(a, b)
    && b.ownerId == a.creatorId
    && b.completed == if a.status == Some(Done) then Some(true) else Some(false)
  }

  // ---------------------------------------------------------------- cleanup

  /** `_validate_mapping_data`. */
  ghost predicate MappingChecks(db: Tables) {
    && (forall u, v :: u in db.wmap && v in db.wmap && db.wmap[u].workspaceId == db.wmap[v].workspaceId ==> u == v)
    && (forall u :: u in db.wmap ==> MappingClean(db, u))
  }

  predicate MappingClean(db: Tables, u: UserId)
    requires u in db.wmap
  {
    var ws := db.wmap[u].workspaceId;
    && u in db.users && ws in db.workspaces && db.workspaces[ws].createdById == u
    && MemberKey(ws, u) in db.members && db.members[MemberKey(ws, u)].role == Owner
  }

  /** `_validate_task_data`. */
  ghost predicate TaskChecks(db: Tables) {
    forall id :: id in db.tasks ==> RowClean(db, db.tasks[id])
  }

  predicate RowClean(db: Tables, row: TaskRow) {
    && row.workspaceId.Some? && row.workspaceId.value in db.workspaces
    && row.creatorId.Some? && row.creatorId.value in db.users
    && (row.assigneeId == None || row.assigneeId.value in db.users)
    && row.status != None && row.createdAt != None && row.updatedAt != None
  }

  /** Only the map goes. */
  predicate MapDropped(before: Tables, db: Tables) {
    && db.users == before.users && db.workspaces == before.workspaces && db.members == before.members
    && db.tasks == before.tasks && db.nextWorkspaceId == before.nextWorkspaceId && db.wmap == map[]
  }

  // ---------------------------------------------------------------- helpers

  /** `MaxId` is MAX. */
  lemma MaxIdIs(x: Option<TaskId>, ids: set<TaskId>)
    ensures x == MaxId(ids) <==> IsMaxId(x, ids)
  {
    if ids != {} {
      assert IsMaxId(MaxId(ids), ids);
    }
  }

  lemma {:induction false} TrimLeftAt(s: string) returns (i: nat)
    ensures i <= |s| && TrimLeft(s) == s[i..] && (forall k :: 0 <= k < i ==> s[k] == ' ')
    ensures i < |s| ==> s[i] != ' '
  {
    if s != "" && s[0] == ' ' {
      var j := TrimLeftAt(s[1..]);
      i := j + 1;
      assert forall k :: 1 <= k < i ==> s[k] == s[1..][k - 1];
    } else {
      i := 0;
    }
  }

  lemma {:induction false} TrimRightAt(s: string) returns (j: nat)
    ensures j <= |s| && TrimRight(s) == s[..j] && (forall k :: j <= k < |s| ==> s[k] == ' ')
    ensures j > 0 ==> s[j - 1] != ' '
  {
    if s != "" && s[|s| - 1] == ' ' {
      j := TrimRightAt(s[..|s| - 1]);
    } else {
      j := |s|;
    }
  }

  lemma TrimmedOnce(s: string, i: nat, j: nat, i': nat, j': nat)
    requires TrimmedAt(s, i, j) && TrimmedAt(s, i', j')
    ensures i == i' && j == j'
  {
  }

  /** The CHECK on titles and names, in terms of the string itself. */
  lemma TrimmedFitsIff(s: string)
    ensures TrimmedFits(s) <==> TitleFits(s)
  {
    var i := TrimLeftAt(s);
    var j := TrimRightAt(s[i..]);
    assert TrimRight(TrimLeft(s)) == s[i..][..j];
    assert i < |s| ==> s[i..][0] == s[i];
    if j > 0 {
      assert s[i..][j - 1] == s[i + j - 1];
      assert forall k :: i + j <= k < |s| ==> s[k] == s[i..][k - i];
      assert TrimmedAt(s, i, i + j);
      if TitleFits(s) {
        var a: nat, b: nat :| TrimmedAt(s, a, b) && 1 <= b - a <= 100;
        TrimmedOnce(s, a, b, i, i + j);
      }
    }
  }
}
