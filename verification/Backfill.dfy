/** Revision c1e8d5a4b762: one mapped personal workspace per user, old tasks moved into it, and the way back. */
module Backfill {
  import opened Wrappers
  import opened Policies
  import opened Schema
  import opened MigrationTables
  import opened MigrationPromises

  function PersonalWorkspaceName(username: string): string {
    "Personal Workspace - " + username
  }

  lemma {:induction false} TrimRightKeepsFirst(s: string)
    requires s != "" && s[0] != ' '
    ensures 1 <= |TrimRight(s)| <= |s|
  {
    if s[|s| - 1] == ' ' { TrimRightKeepsFirst(s[..|s| - 1]); }
  }

  /** Every generated name fits the column and its CHECK. */
  lemma GeneratedNameFits(username: string)
    requires |username| <= 50
    ensures TrimmedFits(PersonalWorkspaceName(username)) && |PersonalWorkspaceName(username)| <= 100
  {
    TrimRightKeepsFirst(PersonalWorkspaceName(username));
  }

  function FilledRow(row: TaskRow, ws: WorkspaceId, owner: UserId, now: Time): TaskRow {
    row.(workspaceId := Some(ws), creatorId := Some(owner), assigneeId := None,
         status := Some(if row.completed == Some(true) then Done else Todo),
         createdAt := Some(now), updatedAt := Some(now))
  }

  // ---------------------------------------------------------------- what the validation establishes

  /** The mapped workspace is the user's own: right creator, and the user as OWNER is its only membership. */
  ghost predicate PersonalWorkspace(db: Tables, u: UserId)
    requires u in db.wmap
  {
    var ws := db.wmap[u].workspaceId;
    && ws in db.workspaces && db.workspaces[ws].createdById == u
    && MemberKey(ws, u) in db.members && db.members[MemberKey(ws, u)].role == Owner
    && forall k :: k in db.members && k.workspaceId == ws ==> k.userId == u
  }

  predicate MetadataCurrent(db: Tables, u: UserId)
    requires u in db.wmap
  {
    |Owned(db, u)| == db.wmap[u].legacyTaskCount && MaxId(Owned(db, u)) == db.wmap[u].legacyTaskMaxId
  }

  predicate RowBackfilled(row: TaskRow) {
    && row.workspaceId.Some? && row.createdAt.Some? && row.updatedAt.Some?
    && row.creatorId.Some? && row.creatorId == row.ownerId
    && row.assigneeId.None?
    && row.status == Some(if row.completed == Some(true) then Done else Todo)
  }

  predicate UsesOwnersWorkspace(db: Tables, row: TaskRow) {
    row.ownerId.Some? && row.ownerId.value in db.wmap && row.workspaceId == Some(db.wmap[row.ownerId.value].workspaceId)
  }

  ghost predicate WorkspacesPersonal(db: Tables) {
    forall u :: u in db.wmap ==> PersonalWorkspace(db, u)
  }

  ghost predicate MetadataMatches(db: Tables) {
    forall u :: u in db.wmap ==> MetadataCurrent(db, u)
  }

  ghost predicate TasksBackfilled(db: Tables) {
    forall id :: id in db.tasks ==> RowBackfilled(db.tasks[id]) && UsesOwnersWorkspace(db, db.tasks[id])
  }

  ghost predicate BackfillFacts(db: Tables) {
    db.wmap.Keys == db.users.Keys && WorkspacesPersonal(db) && MetadataMatches(db) && TasksBackfilled(db)
  }

  /** So the map is a bijection from all users to their workspaces, and workspace and owner of a task determine each
      other. */
  lemma FactsMakeBijection(db: Tables, u: UserId, v: UserId)
    requires BackfillFacts(db) && u in db.users && v in db.users
    ensures u in db.wmap && v in db.wmap
    ensures db.wmap[u].workspaceId == db.wmap[v].workspaceId <==> u == v
    ensures Owned(db, u) == TasksIn(db, db.wmap[u].workspaceId)
  {
    assert u in db.wmap && PersonalWorkspace(db, u) && v in db.wmap && PersonalWorkspace(db, v);
    forall id | id in TasksIn(db, db.wmap[u].workspaceId) ensures id in Owned(db, u) {
      var owner := db.tasks[id].ownerId.value;
      assert PersonalWorkspace(db, owner);
    }
  }

  // ---------------------------------------------------------------- the counting queries

  /** The long OR of the validation query. */
  function Defect(row: TaskRow): Truth {
    Or(Or(Or(Or(Known(row.workspaceId.None?), Known(row.creatorId.None?)), Known(row.status.None?)),
          Or(Known(row.createdAt.None?), Known(row.updatedAt.None?))),
       Or(Or(Differs(row.creatorId, row.ownerId), Known(row.assigneeId.Some?)),
          Or(And(Known(row.completed == Some(true)), Differs(row.status, Some(Done))),
             And(Known(row.completed == Some(false)), Differs(row.status, Some(Todo))))))
  }

  lemma DefectIff(row: TaskRow)
    requires row.ownerId.Some? && row.completed.Some?
    ensures Defect(row) == Yes <==> !RowBackfilled(row)
  {
    if row.status.Some? && row.creatorId.Some? {
      assert Differs(row.creatorId, row.ownerId) == Yes <==> row.creatorId != row.ownerId;
      assert Differs(row.status, Some(Done)) == Yes <==> row.status != Some(Done);
      assert Differs(row.status, Some(Todo)) == Yes <==> row.status != Some(Todo);
      if row.completed == Some(true) {
      } else {
        assert row.completed.value == false;
        assert row.completed == Some(false);
      }
    }
  }

  function Unmapped(db: Tables): set<UserId> {
    set u | u in db.users && u !in db.wmap
  }

  function MappedWithCreator(db: Tables): set<UserId> {
    set u | u in db.wmap && db.wmap[u].workspaceId in db.workspaces
        && db.workspaces[db.wmap[u].workspaceId].createdById == u
  }

  function MappedWithOwner(db: Tables): set<UserId> {
    set u | u in db.wmap && MemberKey(db.wmap[u].workspaceId, u) in db.members
            && db.members[MemberKey(db.wmap[u].workspaceId, u)].role == Owner
  }

  function MappedMemberships(db: Tables): set<(UserId, MemberKey)> {
    set u, k | u in db.wmap && k in db.members && k.workspaceId == db.wmap[u].workspaceId :: (u, k)
  }

  function DefectiveTasks(db: Tables): set<TaskId> {
    set id | id in db.tasks && Defect(db.tasks[id]) == Yes
  }

  function MappedTasks(db: Tables): set<TaskId> {
    set id | id in db.tasks && UsesOwnersWorkspace(db, db.tasks[id])
  }

  lemma UserCountsMeanTotal(db: Tables)
    ensures |db.wmap| == |db.users| && |Unmapped(db)| == 0 <==> db.wmap.Keys == db.users.Keys
  {
    assert Unmapped(db) == {} <==> db.users.Keys <= db.wmap.Keys by {
      forall u | u in db.users ensures u in Unmapped(db) || u in db.wmap { }
    }
    if db.users.Keys <= db.wmap.Keys { SubsetOfSameSize(db.users.Keys, db.wmap.Keys); }
  }

  ghost predicate NoOtherMembers(db: Tables) {
    forall u, k :: u in db.wmap && k in db.members && k.workspaceId == db.wmap[u].workspaceId ==> k.userId == u
  }

  function OwnerPair(db: Tables, u: UserId): (UserId, MemberKey) {
    (u, MemberKey(if u in db.wmap then db.wmap[u].workspaceId else 0, u))
  }

  /** Equal owner and membership counts leave room for no second member. */
  lemma MembershipCountsMeanSoleOwner(db: Tables)
    requires forall u :: u in db.wmap ==> u in MappedWithOwner(db)
    ensures |MappedMemberships(db)| == |db.wmap| <==> NoOtherMembers(db)
  {
    var owners := set u | u in db.wmap :: OwnerPair(db, u);
    ImageSize(db.wmap.Keys, u => OwnerPair(db, u), owners);
    var pairs := MappedMemberships(db);
    forall p | p in owners ensures p in pairs { assert p.0 in MappedWithOwner(db); }
    SubsetOfSameSize(owners, pairs);
    if NoOtherMembers(db) {
      forall p | p in pairs ensures p in owners { assert p == OwnerPair(db, p.0); }
    } else {
      var u, k :| u in db.wmap && k in db.members && k.workspaceId == db.wmap[u].workspaceId && k.userId != u;
      assert (u, k) in pairs;
      assert (u, k) !in owners;
    }
  }

  lemma WorkspaceCountsMeanPersonal(db: Tables)
    ensures |MappedWithCreator(db)| == |db.wmap| && |MappedWithOwner(db)| == |db.wmap|
            && |MappedMemberships(db)| == |db.wmap|
       <==> WorkspacesPersonal(db)
  {
    AllPass(db.wmap.Keys, MappedWithCreator(db));
    AllPass(db.wmap.Keys, MappedWithOwner(db));
    if WorkspacesPersonal(db) {
      forall u | u in db.wmap
        ensures u in MappedWithCreator(db) && u in MappedWithOwner(db)
      {
        assert PersonalWorkspace(db, u);
      }
      MembershipCountsMeanSoleOwner(db);
      forall u, k | u in db.wmap && k in db.members && k.workspaceId == db.wmap[u].workspaceId ensures k.userId == u {
        assert PersonalWorkspace(db, u);
      }
    } else if |MappedWithOwner(db)| == |db.wmap| {
      MembershipCountsMeanSoleOwner(db);
      var u :| u in db.wmap && !PersonalWorkspace(db, u);
      assert u in MappedWithOwner(db);
    }
  }

  lemma TaskCountsMeanBackfilled(db: Tables)
    requires LegacyColumns(db)
    ensures |DefectiveTasks(db)| == 0 && |MappedTasks(db)| == |db.tasks| <==> TasksBackfilled(db)
  {
    forall id | id in db.tasks
      ensures id in DefectiveTasks(db) <==> !RowBackfilled(db.tasks[id])
    {
      DefectIff(db.tasks[id]);
    }
    assert |DefectiveTasks(db)| == 0 <==> DefectiveTasks(db) == {};
    AllPass(db.tasks.Keys, MappedTasks(db));
  }

  /** The rows of earlier workspaces, and of their memberships, are the ones read before the loop. */
  predicate OriginalsKept(db: Tables, workspaces: map<WorkspaceId, Workspace>, members: map<MemberKey, Membership>) {
    && (map w | w in db.workspaces && w in workspaces :: db.workspaces[w]) == workspaces
    && (map k | k in db.members && k.workspaceId in workspaces :: db.members[k]) == members
  }

  method ValidateWorkspaces(c: Connection) returns (ok: bool)
    ensures ok <==> WorkspacesPersonal(c.db)
  {
    WorkspaceCountsMeanPersonal(c.db);
    var mappingCount := |c.db.wmap|;
    if |MappedWithCreator(c.db)| != mappingCount {
      return false;
    }
    return |MappedWithOwner(c.db)| == mappingCount && |MappedMemberships(c.db)| == mappingCount;
  }

  /** The first users of the list have current metadata. */
  ghost predicate MetadataUpTo(db: Tables, users: seq<UserId>) {
    users == []
    || (MetadataUpTo(db, users[..|users| - 1])
        && users[|users| - 1] in db.wmap && MetadataCurrent(db, users[|users| - 1]))
  }

  lemma {:induction false} MetadataUpToIff(db: Tables, users: seq<UserId>)
    requires forall u :: u in users ==> u in db.wmap
    ensures MetadataUpTo(db, users) <==> forall u :: u in users ==> MetadataCurrent(db, u)
  {
    if users != [] {
      var front, last := users[..|users| - 1], users[|users| - 1];
      assert users == front + [last];
      MetadataUpToIff(db, front);
    }
  }

  lemma OutdatedIsEnough(db: Tables, users: seq<UserId>, i: nat)
    requires (forall u :: u in users ==> u in db.wmap) && i < |users| && !MetadataCurrent(db, users[i])
    ensures !MetadataUpTo(db, users)
  {
    MetadataUpToIff(db, users);
  }

  method CheckMetadata(c: Connection, mappings: seq<UserId>) returns (ok: bool)
    requires forall u :: u in mappings ==> u in c.db.wmap
    ensures ok <==> MetadataUpTo(c.db, mappings)
  {
    for i := 0 to |mappings|
      invariant MetadataUpTo(c.db, mappings[..i])
    {
      var user := mappings[i];
      if |Owned(c.db, user)| != c.db.wmap[user].legacyTaskCount
         || MaxId(Owned(c.db, user)) != c.db.wmap[user].legacyTaskMaxId {
        OutdatedIsEnough(c.db, mappings, i);
        return false;
      }
      assert mappings[..i + 1][..i] == mappings[..i];
    }
    assert mappings[..|mappings|] == mappings;
    return true;
  }

  method ValidateMetadata(c: Connection) returns (ok: bool)
    ensures ok <==> MetadataMatches(c.db)
  {
    var mappings := InIdOrder(c.db.wmap.Keys);
    MetadataUpToIff(c.db, mappings);
    ok := CheckMetadata(c, mappings);
  }

  method ValidateTasks(c: Connection) returns (ok: bool)
    requires LegacyColumns(c.db)
    ensures ok <==> TasksBackfilled(c.db)
  {
    TaskCountsMeanBackfilled(c.db);
    if |DefectiveTasks(c.db)| != 0 {
      return false;
    }
    return |MappedTasks(c.db)| == |c.db.tasks|;
  }

  lemma MappingUpgradedIff(db: Tables, u: UserId)
    requires u in db.wmap
    ensures MappingUpgraded(db, u) <==> PersonalWorkspace(db, u) && MetadataCurrent(db, u)
  {
    assert Owned(db, u) == TasksOwnedBy(db, u);
    MaxIdIs(db.wmap[u].legacyTaskMaxId, Owned(db, u));
  }

  lemma RowUpgradedIff(db: Tables, row: TaskRow)
    requires row.ownerId.Some? && row.completed.Some?
    ensures RowUpgraded(db, row) <==> RowBackfilled(row) && UsesOwnersWorkspace(db, row)
  {
    BooleanStatus(row);
  }

  lemma OriginalsKeptIff(db: Tables, workspaces: map<WorkspaceId, Workspace>, members: map<MemberKey, Membership>)
    ensures OriginalsKept(db, workspaces, members)
       <==> && (forall w :: w in workspaces ==> w in db.workspaces && db.workspaces[w] == workspaces[w])
            && (forall k :: k in members ==>
                  k.workspaceId in workspaces && k in db.members && db.members[k] == members[k])
            && (forall k :: k in db.members && k.workspaceId in workspaces ==> k in members)
  {
    var ws := map w | w in db.workspaces && w in workspaces :: db.workspaces[w];
    var ms := map k | k in db.members && k.workspaceId in workspaces :: db.members[k];
    assert ws == workspaces <==> forall w :: w in workspaces ==> w in ws && ws[w] == workspaces[w];
    assert ms == members
      <==> (forall k :: k in members ==> k in ms && ms[k] == members[k]) && forall k :: k in ms ==> k in members;
  }

  /** The facts the counts establish, column by column. */
  lemma UpgradeChecksIff(db: Tables, workspaces: map<WorkspaceId, Workspace>, members: map<MemberKey, Membership>)
    requires LegacyColumns(db)
    ensures UpgradeChecks(db, workspaces, members) <==> BackfillFacts(db) && OriginalsKept(db, workspaces, members)
  {
    forall u | u in db.wmap ensures MappingUpgraded(db, u) <==> PersonalWorkspace(db, u) && MetadataCurrent(db, u) {
      MappingUpgradedIff(db, u);
    }
    forall id | id in db.tasks
      ensures RowUpgraded(db, db.tasks[id]) <==> RowBackfilled(db.tasks[id]) && UsesOwnersWorkspace(db, db.tasks[id])
    {
      RowUpgradedIff(db, db.tasks[id]);
    }
    OriginalsKeptIff(db, workspaces, members);
  }

  /** `_validate_upgrade`: counting queries, in the source's order. They accept exactly the backfilled databases. */
  method ValidateUpgrade(c: Connection, workspaces: map<WorkspaceId, Workspace>, members: map<MemberKey, Membership>)
    returns (ok: bool)
    requires LegacyColumns(c.db)
    ensures ok <==> BackfillFacts(c.db) && OriginalsKept(c.db, workspaces, members)
    ensures ok <==> UpgradeChecks(c.db, workspaces, members)
  {
    UpgradeChecksIff(c.db, workspaces, members);
    UserCountsMeanTotal(c.db);
    if |c.db.wmap| != |c.db.users| || |Unmapped(c.db)| != 0 {
      return false;
    }
    var valid := ValidateWorkspaces(c);
    if !valid {
      return false;
    }
    valid := ValidateMetadata(c);
    if !valid {
      return false;
    }
    valid := ValidateTasks(c);
    if !valid {
      return false;
    }
    return OriginalsKept(c.db, workspaces, members);
  }

  // ---------------------------------------------------------------- the user loop

  /** The state after the users in the map were processed, pointwise against the state before. Generated workspace
      ids are new; everything else is determined. */
  ghost predicate Backfilled(before: Tables, db: Tables, now: Time) {
    && CountersAdvanced(before, db)
    && MapFilled(before, db, now)
    && WorkspacesAdded(before, db)
    && MembersAdded(before, db)
    && TasksMoved(before, db, now)
  }

  ghost predicate MapFilled(before: Tables, db: Tables, now: Time) {
    forall u :: u in db.wmap ==> UserBackfilled(before, db, u, now)
  }

  predicate UserBackfilled(before: Tables, db: Tables, u: UserId, now: Time) {
    && u in db.wmap && u in before.users
    && var ws := db.wmap[u].workspaceId;
       && before.nextWorkspaceId <= ws < db.nextWorkspaceId
       && db.wmap[u].migratedAt == now
       && ws in db.workspaces && db.workspaces[ws] == Workspace(PersonalWorkspaceName(before.users[u]), u, now, now)
       && MemberKey(ws, u) in db.members && db.members[MemberKey(ws, u)] == Membership(Owner, now, now)
  }

  /** Earlier workspaces are untouched; the new ones belong to mapped users. */
  ghost predicate WorkspacesAdded(before: Tables, db: Tables) {
    && (forall w :: w in before.workspaces ==> w in db.workspaces && db.workspaces[w] == before.workspaces[w])
    && (forall w :: w in db.workspaces && w !in before.workspaces ==> Generated(db, w, db.workspaces[w].createdById))
  }

  ghost predicate MembersAdded(before: Tables, db: Tables) {
    && (forall k :: k in before.members ==> k in db.members && db.members[k] == before.members[k])
    && (forall k :: k in db.members && k !in before.members ==> Generated(db, k.workspaceId, k.userId))
  }

  predicate Generated(db: Tables, ws: WorkspaceId, user: UserId) {
    user in db.wmap && db.wmap[user].workspaceId == ws
  }

  ghost predicate TasksMoved(before: Tables, db: Tables, now: Time) {
    && db.tasks.Keys == before.tasks.Keys
    && forall id :: id in before.tasks ==> RowMoved(before, db, id, now)
  }

  predicate RowMoved(before: Tables, db: Tables, id: TaskId, now: Time)
    requires id in before.tasks
  {
    id in db.tasks && db.tasks[id] == BackfilledRow(db, before.tasks[id], now)
  }

  function BackfilledRow(db: Tables, row: TaskRow, now: Time): TaskRow {
    if row.ownerId.Some? && row.ownerId.value in db.wmap
    then FilledRow(row, db.wmap[row.ownerId.value].workspaceId, row.ownerId.value, now) else row
  }

  /** The effect of one pass of the loop. */
  function BackfillUser(db: Tables, user: UserId, now: Time): Tables
    requires user in db.users
  {
    var ws := db.nextWorkspaceId;
    db.(workspaces := db.workspaces[ws := Workspace(PersonalWorkspaceName(db.users[user]), user, now, now)],
        nextWorkspaceId := ws + 1,
        members := db.members[MemberKey(ws, user) := Membership(Owner, now, now)],
        wmap := db.wmap[user := MapRow(ws, |Owned(db, user)|, MaxId(Owned(db, user)), now)],
        tasks := FilledTasks(db.tasks, ws, user, now))
  }

  function FilledTasks(tasks: map<TaskId, TaskRow>, ws: WorkspaceId, user: UserId, now: Time): map<TaskId, TaskRow> {
    map id | id in tasks :: if tasks[id].ownerId == Some(user) then FilledRow(tasks[id], ws, user, now) else tasks[id]
  }

  /** The next generated id is new everywhere. */
  lemma NextIdIsNew(before: Tables, db: Tables, now: Time)
    requires WorkspacesEnforced(before) && MembersEnforced(before) && before.nextWorkspaceId <= db.nextWorkspaceId
    requires MapFilled(before, db, now) && WorkspacesAdded(before, db) && MembersAdded(before, db)
    ensures db.nextWorkspaceId !in db.workspaces
    ensures forall k :: k in db.members ==> k.workspaceId != db.nextWorkspaceId
    ensures forall u :: u in db.wmap ==>
              db.wmap[u].workspaceId < db.nextWorkspaceId && db.wmap[u].workspaceId !in before.workspaces
  {
    forall u | u in db.wmap
      ensures db.wmap[u].workspaceId < db.nextWorkspaceId && db.wmap[u].workspaceId !in before.workspaces
    {
      assert UserBackfilled(before, db, u, now);
    }
  }

  /** Moving tasks keeps their legacy owners, so the recorded counts and maxima stay right. */
  lemma MetadataStep(db: Tables, user: UserId, now: Time)
    requires user in db.users && MetadataMatches(db)
    ensures MetadataMatches(BackfillUser(db, user, now))
  {
    var next := BackfillUser(db, user, now);
    forall u ensures Owned(next, u) == Owned(db, u) { }
    forall u | u in next.wmap ensures MetadataCurrent(next, u) {
      if u != user { assert MetadataCurrent(db, u); }
    }
  }

  ghost predicate CountersAdvanced(before: Tables, db: Tables) {
    && db.users == before.users
    && db.wmap.Keys <= before.users.Keys
    && db.nextWorkspaceId == before.nextWorkspaceId + |db.wmap|
  }

  lemma MapGrows<K, V>(m: map<K, V>, k: K, v: V)
    requires k !in m
    ensures m[k := v].Keys == m.Keys + {k} && |m[k := v]| == |m| + 1
  {
    assert m[k := v].Keys == m.Keys + {k};
  }

  lemma CountersStep(before: Tables, db: Tables, user: UserId, now: Time)
    requires CountersAdvanced(before, db) && user in before.users && user !in db.wmap
    ensures CountersAdvanced(before, BackfillUser(db, user, now))
  {
    MapGrows(db.wmap, user, BackfillUser(db, user, now).wmap[user]);
  }

  lemma BackfillUserStep(before: Tables, db: Tables, user: UserId, now: Time)
    requires WorkspacesEnforced(before) && MembersEnforced(before)
    requires Backfilled(before, db, now) && user in before.users && user !in db.wmap
    ensures Backfilled(before, BackfillUser(db, user, now), now)
  {
    CountersStep(before, db, user, now);
    MapFilledStep(before, db, user, now);
    TasksMovedStep(before, db, user, now);
    NextIdIsNew(before, db, now);
    RowsAddedStep(before, db, user, now);
  }

  lemma MapFilledStep(before: Tables, db: Tables, user: UserId, now: Time)
    requires db.users == before.users && user in before.users && user !in db.wmap
    requires before.nextWorkspaceId <= db.nextWorkspaceId && MapFilled(before, db, now)
    ensures MapFilled(before, BackfillUser(db, user, now), now)
  {
    var db' := BackfillUser(db, user, now);
    forall u | u in db'.wmap ensures UserBackfilled(before, db', u, now) {
      if u != user { assert UserBackfilled(before, db, u, now); }
    }
  }

  lemma RowsAddedStep(before: Tables, db: Tables, user: UserId, now: Time)
    requires user in db.users && user !in db.wmap && db.nextWorkspaceId !in db.workspaces
    requires forall k :: k in db.members ==> k.workspaceId != db.nextWorkspaceId
    requires WorkspacesAdded(before, db) && MembersAdded(before, db)
    ensures WorkspacesAdded(before, BackfillUser(db, user, now)) && MembersAdded(before, BackfillUser(db, user, now))
  {
  }

  lemma TasksMovedStep(before: Tables, db: Tables, user: UserId, now: Time)
    requires user in db.users && user !in db.wmap && TasksMoved(before, db, now)
    ensures TasksMoved(before, BackfillUser(db, user, now), now)
  {
    var db' := BackfillUser(db, user, now);
    forall id | id in before.tasks ensures RowMoved(before, db', id, now) { assert RowMoved(before, db, id, now); }
  }

  /** The whole loop as a function: the users in order, one after the other. */
  function BackfillAll(db: Tables, users: seq<UserId>, now: Time): (r: Tables)
    requires forall u :: u in users ==> u in db.users
    ensures r.users == db.users
    ensures forall u :: u in r.wmap <==> u in db.wmap || u in users
  {
    if users == [] then db
    else
      var front, last := users[..|users| - 1], users[|users| - 1];
      assert users == front + [last];
      BackfillUser(BackfillAll(db, front, now), last, now)
  }

  ghost predicate Distinct(users: seq<UserId>) {
    forall i, j :: 0 <= i < j < |users| ==> users[i] != users[j]
  }

  lemma {:induction false} BackfillAllWorks(db: Tables, users: seq<UserId>, now: Time)
    requires WorkspacesEnforced(db) && MembersEnforced(db) && db.wmap == map[]
    requires (forall u :: u in users ==> u in db.users) && Distinct(users)
    ensures Backfilled(db, BackfillAll(db, users, now), now)
  {
    if users != [] {
      var front, last := users[..|users| - 1], users[|users| - 1];
      BackfillAllWorks(db, front, now);
      BackfillUserStep(db, BackfillAll(db, front, now), last, now);
    }
  }

  lemma {:induction false} BackfillAllMetadata(db: Tables, users: seq<UserId>, now: Time)
    requires db.wmap == map[] && forall u :: u in users ==> u in db.users
    ensures MetadataMatches(BackfillAll(db, users, now))
  {
    if users != [] {
      var front, last := users[..|users| - 1], users[|users| - 1];
      BackfillAllMetadata(db, front, now);
      MetadataStep(BackfillAll(db, front, now), last, now);
    }
  }

  /** What the constraints need before each pass of the loop. */
  predicate ReadyFor(db: Tables, user: UserId) {
    && user in db.users && |db.users[user]| <= 50 && user !in db.wmap
    && db.nextWorkspaceId !in db.workspaces
    && (forall k :: k in db.members ==> k.workspaceId != db.nextWorkspaceId)
    && (forall u :: u in db.wmap ==> db.wmap[u].workspaceId != db.nextWorkspaceId)
  }

  lemma LoopReady(db: Tables, users: seq<UserId>, i: nat, now: Time)
    requires UsersEnforced(db) && WorkspacesEnforced(db) && MembersEnforced(db) && db.wmap == map[]
    requires (forall u :: u in users ==> u in db.users) && Distinct(users) && i < |users|
    ensures ReadyFor(BackfillAll(db, users[..i], now), users[i])
  {
    BackfillAllWorks(db, users[..i], now);
    NextIdIsNew(db, BackfillAll(db, users[..i], now), now);
  }

  /** One pass of the loop, statement by statement; no statement violates a constraint. */
  method BackfillOneUser(c: Connection, user: UserId, now: Time)
    requires ReadyFor(c.db, user)
    modifies c
    ensures c.db == BackfillUser(old(c.db), user, now)
  {
    var legacyTaskCount := |Owned(c.db, user)|;
    var legacyTaskMaxId := MaxId(Owned(c.db, user));
    GeneratedNameFits(c.db.users[user]);
    var workspaceId := c.InsertWorkspace(Workspace(PersonalWorkspaceName(c.db.users[user]), user, now, now));
    c.InsertMember(MemberKey(workspaceId, user), Membership(Owner, now, now));
    c.InsertMapping(user, MapRow(workspaceId, legacyTaskCount, legacyTaskMaxId, now));
    c.db := c.db.(tasks := map id | id in c.db.tasks ::
      if c.db.tasks[id].ownerId == Some(user) then FilledRow(c.db.tasks[id], workspaceId, user, now)
      else c.db.tasks[id]);
  }

  /** The loop over all users, in ascending id. */
  method BackfillUsers(c: Connection, existingUsers: seq<UserId>, now: Time)
    requires UsersEnforced(c.db) && WorkspacesEnforced(c.db) && MembersEnforced(c.db) && c.db.wmap == map[]
    requires (forall u :: u in existingUsers ==> u in c.db.users) && Distinct(existingUsers)
    modifies c
    ensures c.db == BackfillAll(old(c.db), existingUsers, now)
  {
    for i := 0 to |existingUsers|
      invariant c.db == BackfillAll(old(c.db), existingUsers[..i], now)
    {
      LoopReady(old(c.db), existingUsers, i, now);
      assert existingUsers[..i + 1][..i] == existingUsers[..i];
      BackfillOneUser(c, existingUsers[i], now);
    }
    assert existingUsers[..|existingUsers|] == existingUsers;
  }

  /** `upgrade`: succeeds on every database with an empty map, and then passes its own validation. */
  method Upgrade(c: Connection, now: Time) returns (ok: bool)
    requires Enforced(c.db) && LegacyColumns(c.db)
    modifies c
    ensures ok <==> old(c.db).wmap == map[]
    ensures !ok ==> c.db == old(c.db)
    ensures ok ==> WrittenBy(old(c.db), c.db, now) && UpgradePromise(old(c.db), c.db, now)
  {
    if |c.db.wmap| != 0 {
      return false;
    }
    var originalWorkspaces := c.db.workspaces;
    var originalMembers := OriginalMembers(c.db);
    var existingUsers := InIdOrder(c.db.users.Keys);
    IdOrderAscends(c.db.users.Keys);
    BackfillUsers(c, existingUsers, now);
    LoopWrites(old(c.db), existingUsers, now);
    WrittenKeepsPromise(old(c.db), c.db, now);
    OriginalsSurviveLoop(old(c.db), c.db, now);
    ok := ValidateUpgrade(c, originalWorkspaces, originalMembers);
  }

  function OriginalMembers(db: Tables): map<MemberKey, Membership> {
    map k | k in db.members && k.workspaceId in db.workspaces :: db.members[k]
  }

  /** `written` is what a successful backfill of `before` left. */
  ghost predicate WrittenBy(before: Tables, written: Tables, now: Time) {
    && Enforced(before) && LegacyColumns(before) && before.wmap == map[]
    && Backfilled(before, written, now) && written.wmap.Keys == before.users.Keys && BackfillFacts(written)
  }

  /** What the user loop leaves is such a database. */
  lemma LoopWrites(before: Tables, users: seq<UserId>, now: Time)
    requires Enforced(before) && LegacyColumns(before) && before.wmap == map[] && Distinct(users)
    requires forall u :: u in users <==> u in before.users
    ensures WrittenBy(before, BackfillAll(before, users, now), now)
  {
    BackfillAllWorks(before, users, now);
    BackfillAllMetadata(before, users, now);
    AllUsersMapped(before, users, now);
    CompleteLoopWrites(before, BackfillAll(before, users, now), now);
  }

  lemma AllUsersMapped(before: Tables, users: seq<UserId>, now: Time)
    requires before.wmap == map[] && forall u :: u in users <==> u in before.users
    ensures BackfillAll(before, users, now).wmap.Keys == before.users.Keys
  {
    assert forall u :: u in BackfillAll(before, users, now).wmap <==> u in users;
  }

  lemma CompleteLoopWrites(before: Tables, db: Tables, now: Time)
    requires Enforced(before) && LegacyColumns(before) && before.wmap == map[]
    requires Backfilled(before, db, now) && MetadataMatches(db) && db.wmap.Keys == before.users.Keys
    ensures WrittenBy(before, db, now)
  {
    assert BackfillFacts(db) by { BackfilledPassesValidation(before, db, now); }
  }

  /** A successful backfill leaves, column by column, what is promised. */
  lemma WrittenKeepsPromise(before: Tables, db: Tables, now: Time)
    requires WrittenBy(before, db, now)
    ensures UpgradePromise(before, db, now)
  {
    forall u | u in db.wmap ensures UserUpgraded(before, db, u, now) { WrittenUser(before, db, u, now); }
    MapIsOneToOne(db);
    forall id | id in before.tasks ensures id in db.tasks && TaskUpgraded(db, before.tasks[id], db.tasks[id], now) {
      WrittenTask(before, db, id, now);
    }
    WrittenRows(before, db, now);
  }

  ghost predicate OneToOne(db: Tables) {
    forall u, v :: u in db.wmap && v in db.wmap && db.wmap[u].workspaceId == db.wmap[v].workspaceId ==> u == v
  }

  lemma MapIsOneToOne(db: Tables)
    requires BackfillFacts(db)
    ensures OneToOne(db)
  {
    forall u, v | u in db.wmap && v in db.wmap && db.wmap[u].workspaceId == db.wmap[v].workspaceId ensures u == v {
      FactsMakeBijection(db, u, v);
    }
  }

  lemma WrittenUser(before: Tables, db: Tables, u: UserId, now: Time)
    requires WrittenBy(before, db, now) && u in db.wmap
    ensures UserUpgraded(before, db, u, now)
  {
    assert UserBackfilled(before, db, u, now) && MetadataCurrent(db, u);
    assert db.wmap[u].workspaceId !in before.workspaces by { NextIdIsNew(before, db, now); }
    assert Owned(db, u) == TasksOwnedBy(before, u) by { SameOwners(before, db, u, now); }
    MaxIdIs(db.wmap[u].legacyTaskMaxId, Owned(db, u));
  }

  lemma SameOwners(before: Tables, db: Tables, u: UserId, now: Time)
    requires TasksMoved(before, db, now)
    ensures Owned(db, u) == TasksOwnedBy(before, u)
  {
    forall id | id in before.tasks ensures id in db.tasks && db.tasks[id].ownerId == before.tasks[id].ownerId {
      assert RowMoved(before, db, id, now);
    }
  }

  lemma WrittenTask(before: Tables, db: Tables, id: TaskId, now: Time)
    requires WrittenBy(before, db, now) && id in before.tasks
    ensures id in db.tasks && TaskUpgraded(db, before.tasks[id], db.tasks[id], now)
  {
    assert RowMoved(before, db, id, now) && UsesOwnersWorkspace(db, db.tasks[id]);
    BooleanStatus(before.tasks[id]);
  }

  lemma BooleanStatus(row: TaskRow)
    requires row.completed.Some?
    ensures StatusMatches(row.completed, Some(if row.completed == Some(true) then Done else Todo))
  {
    if row.completed.value { } else { assert row.completed == Some(false); }
  }

  lemma WrittenRows(before: Tables, db: Tables, now: Time)
    requires WorkspacesAdded(before, db) && MembersAdded(before, db) && TasksMoved(before, db, now)
    ensures forall w :: w in db.workspaces && w !in before.workspaces ==> Mapped(db, w)
    ensures forall k :: k in db.members && k !in before.members ==>
              k.userId in db.wmap && k.workspaceId == db.wmap[k.userId].workspaceId
  {
    forall w | w in db.workspaces && w !in before.workspaces ensures Mapped(db, w) {
      assert Generated(db, w, db.workspaces[w].createdById);
    }
    forall k | k in db.members && k !in before.members
      ensures k.userId in db.wmap && k.workspaceId == db.wmap[k.userId].workspaceId
    {
      assert Generated(db, k.workspaceId, k.userId);
    }
  }

  lemma OriginalsSurviveLoop(before: Tables, db: Tables, now: Time)
    requires WrittenBy(before, db, now)
    ensures LegacyColumns(db) && OriginalsKept(db, before.workspaces, OriginalMembers(before))
  {
    BackfilledPassesValidation(before, db, now);
  }

  lemma BackfilledPassesValidation(before: Tables, db: Tables, now: Time)
    requires Enforced(before) && LegacyColumns(before)
    requires Backfilled(before, db, now) && MetadataMatches(db) && db.wmap.Keys == before.users.Keys
    ensures LegacyColumns(db) && BackfillFacts(db)
    ensures OriginalsKept(db, before.workspaces, OriginalMembers(before))
  {
    NextIdIsNew(before, db, now);
    forall u | u in db.wmap ensures PersonalWorkspace(db, u) { BackfilledIsPersonal(before, db, u, now); }
    BackfilledTasks(before, db, now);
    OriginalsSurvive(before, db, now);
  }

  lemma BackfilledTasks(before: Tables, db: Tables, now: Time)
    requires TasksEnforced(before) && LegacyColumns(before) && TasksMoved(before, db, now)
    requires db.wmap.Keys == before.users.Keys
    ensures TasksBackfilled(db) && LegacyColumns(db)
  {
    forall id | id in db.tasks
      ensures RowBackfilled(db.tasks[id]) && UsesOwnersWorkspace(db, db.tasks[id]) && db.tasks[id].completed.Some?
    {
      assert RowMoved(before, db, id, now) && RowReferences(before, before.tasks[id]);
    }
  }

  lemma BackfilledIsPersonal(before: Tables, db: Tables, u: UserId, now: Time)
    requires MembersEnforced(before) && MembersAdded(before, db) && u in db.wmap && UserBackfilled(before, db, u, now)
    requires WorkspacesEnforced(before)
    requires MapFilled(before, db, now)
    ensures PersonalWorkspace(db, u)
  {
    var ws := db.wmap[u].workspaceId;
    forall k | k in db.members && k.workspaceId == ws ensures k.userId == u {
      assert k !in before.members;
      assert Generated(db, ws, k.userId);
      assert UserBackfilled(before, db, k.userId, now);
    }
  }

  lemma OriginalsSurvive(before: Tables, db: Tables, now: Time)
    requires MembersEnforced(before) && MembersAdded(before, db) && WorkspacesAdded(before, db)
    requires forall u :: u in db.wmap ==> db.wmap[u].workspaceId !in before.workspaces
    ensures OriginalsKept(db, before.workspaces, OriginalMembers(before))
  {
  }
}
