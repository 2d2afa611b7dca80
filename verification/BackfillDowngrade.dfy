/** The reverse of revision c1e8d5a4b762: only unchanged generated data is removed, and removing it restores the state
    before the backfill. */
module BackfillDowngrade {
  import opened Wrappers
  import opened Policies
  import opened Schema
  import opened MigrationTables
  import opened MigrationPromises
  import opened Backfill

  // ---------------------------------------------------------------- the guard

  /** The guard's OR over one task of a generated workspace. */
  function GuardDefect(row: TaskRow, user: UserId, migratedAt: Time): Truth {
    Or(Or(Or(Differs(row.ownerId, Some(user)), Differs(row.creatorId, row.ownerId)), Known(row.assigneeId.Some?)),
       Or(Or(And(Known(row.completed == Some(true)), Differs(row.status, Some(Done))),
             And(Known(row.completed == Some(false)), Differs(row.status, Some(Todo)))),
          Or(Differs(row.createdAt, Some(migratedAt)), Differs(row.updatedAt, Some(migratedAt)))))
  }

  predicate NullOr<T(==)>(column: Option<T>, value: T) {
    column.None? || column.value == value
  }

  /** What the guard really checks: a NULL in one of these columns is not a change to SQL's `!=`. */
  predicate RowUntouched(row: TaskRow, user: UserId, migratedAt: Time) {
    && row.ownerId == Some(user)
    && NullOr(row.creatorId, user)
    && row.assigneeId.None?
    && NullOr(row.status, if row.completed == Some(true) then Done else Todo)
    && NullOr(row.createdAt, migratedAt) && NullOr(row.updatedAt, migratedAt)
  }

  lemma GuardDefectIff(row: TaskRow, user: UserId, migratedAt: Time)
    requires row.ownerId.Some? && row.completed.Some?
    ensures GuardDefect(row, user, migratedAt) == Yes <==> !RowUntouched(row, user, migratedAt)
  {
    if row.completed == Some(true) {
    } else {
      assert row.completed.value == false;
      assert row.completed == Some(false);
    }
  }

  /** The guard is weaker than "unchanged": a row whose status was set to NULL passes it. */
  lemma GuardMissesNull(row: TaskRow, user: UserId, migratedAt: Time)
    requires row.ownerId.Some? && row.completed.Some? && GuardDefect(row, user, migratedAt) != Yes
    ensures GuardDefect(row.(status := None), user, migratedAt) != Yes && !RowBackfilled(row.(status := None))
  {
    GuardDefectIff(row, user, migratedAt);
    GuardDefectIff(row.(status := None), user, migratedAt);
  }

  function MembersOf(db: Tables, ws: WorkspaceId): set<MemberKey> {
    set k | k in db.members && k.workspaceId == ws
  }

  predicate WorkspaceUntouched(db: Tables, u: UserId)
    requires u in db.wmap
  {
    var m := db.wmap[u];
    && u in db.users && m.workspaceId in db.workspaces
    && db.workspaces[m.workspaceId] == Workspace(PersonalWorkspaceName(db.users[u]), u, m.migratedAt, m.migratedAt)
  }

  predicate MembershipUntouched(db: Tables, u: UserId)
    requires u in db.wmap
  {
    var m := db.wmap[u];
    var key := MemberKey(m.workspaceId, u);
    MembersOf(db, m.workspaceId) == {key} && db.members[key] == Membership(Owner, m.migratedAt, m.migratedAt)
  }

  predicate CountsUntouched(db: Tables, u: UserId)
    requires u in db.wmap
  {
    var m := db.wmap[u];
    |Owned(db, u)| == m.legacyTaskCount && |TasksIn(db, m.workspaceId)| == m.legacyTaskCount
    && MaxId(Owned(db, u)) == m.legacyTaskMaxId
  }

  ghost predicate TasksUntouched(db: Tables, u: UserId)
    requires u in db.wmap
  {
    forall id :: id in TasksIn(db, db.wmap[u].workspaceId) ==> RowUntouched(db.tasks[id], u, db.wmap[u].migratedAt)
  }

  ghost predicate Untouched(db: Tables, u: UserId) {
    u in db.wmap && WorkspaceUntouched(db, u) && MembershipUntouched(db, u) && CountsUntouched(db, u)
        && TasksUntouched(db, u)
  }

  ghost predicate DowngradeAllowed(db: Tables) {
    forall u :: u in db.wmap ==> Untouched(db, u)
  }

  /** Containment and equal counts: a user's tasks are exactly the tasks of the generated workspace. */
  lemma OwnedIsWorkspace(db: Tables, u: UserId)
    requires Untouched(db, u)
    ensures Owned(db, u) == TasksIn(db, db.wmap[u].workspaceId)
  {
    var inWorkspace := TasksIn(db, db.wmap[u].workspaceId);
    forall id | id in inWorkspace
      ensures id in Owned(db, u)
    {
      assert RowUntouched(db.tasks[id], u, db.wmap[u].migratedAt);
    }
    SubsetOfSameSize(inWorkspace, Owned(db, u));
  }

  /** One pass of the guard, in the source's order. */
  method CheckMapping(c: Connection, u: UserId) returns (ok: bool)
    requires LegacyColumns(c.db) && u in c.db.wmap
    ensures ok <==> Untouched(c.db, u)
  {
    var m := c.db.wmap[u];
    if u !in c.db.users || m.workspaceId !in c.db.workspaces {
      return false;
    }
    var workspace := c.db.workspaces[m.workspaceId];
    if workspace.name != PersonalWorkspaceName(c.db.users[u]) || workspace.createdById != u
       || workspace.createdAt != m.migratedAt || workspace.updatedAt != m.migratedAt {
      return false;
    }
    var memberships := MembersOf(c.db, m.workspaceId);
    if |memberships| != 1 {
      NotSingleton(memberships, MemberKey(m.workspaceId, u));
      return false;
    }
    var key :| key in memberships;
    OnlyElement(memberships, key);
    if key.userId != u || c.db.members[key].role != Owner
       || c.db.members[key].joinedAt != m.migratedAt || c.db.members[key].updatedAt != m.migratedAt {
      return false;
    }
    if |Owned(c.db, u)| != m.legacyTaskCount || |TasksIn(c.db, m.workspaceId)| != m.legacyTaskCount
       || MaxId(Owned(c.db, u)) != m.legacyTaskMaxId {
      return false;
    }
    var invalid := set id | id in c.db.tasks && c.db.tasks[id].workspaceId == Some(m.workspaceId)
                            && GuardDefect(c.db.tasks[id], u, m.migratedAt) == Yes;
    forall id | id in TasksIn(c.db, m.workspaceId)
      ensures id in invalid <==> !RowUntouched(c.db.tasks[id], u, m.migratedAt)
    {
      GuardDefectIff(c.db.tasks[id], u, m.migratedAt);
    }
    assert TasksUntouched(c.db, u) <==> invalid == {};
    return |invalid| == 0;
  }

  lemma OnlyElement<T>(s: set<T>, x: T)
    requires x in s && |s| == 1
    ensures s == {x}
  {
    SubsetOfSameSize({x}, s);
  }

  lemma NotSingleton<T>(s: set<T>, x: T)
    requires |s| != 1
    ensures s != {x}
  {
  }

  ghost predicate AllUntouched(db: Tables, users: seq<UserId>) {
    users == [] || (AllUntouched(db, users[..|users| - 1]) && Untouched(db, users[|users| - 1]))
  }

  lemma {:induction false} AllUntouchedIff(db: Tables, users: seq<UserId>)
    ensures AllUntouched(db, users) <==> forall i :: 0 <= i < |users| ==> Untouched(db, users[i])
  {
    if users != [] {
      var front := users[..|users| - 1];
      AllUntouchedIff(db, front);
      assert forall i :: 0 <= i < |front| ==> front[i] == users[i];
    }
  }

  lemma AllMappingsUntouched(db: Tables, mappings: seq<UserId>)
    requires forall u :: u in mappings <==> u in db.wmap
    ensures AllUntouched(db, mappings) <==> DowngradeAllowed(db)
  {
    AllUntouchedIff(db, mappings);
    assert forall i :: 0 <= i < |mappings| ==> mappings[i] in db.wmap;
    if AllUntouched(db, mappings) {
      forall u | u in db.wmap ensures Untouched(db, u) { assert u in mappings; }
    }
  }

  lemma {:induction false} OneTouchedIsEnough(db: Tables, users: seq<UserId>, i: nat)
    requires i < |users| && !Untouched(db, users[i])
    ensures !AllUntouched(db, users)
  {
    AllUntouchedIff(db, users);
  }

  method CheckMappings(c: Connection, mappings: seq<UserId>) returns (ok: bool)
    requires LegacyColumns(c.db) && forall j :: 0 <= j < |mappings| ==> mappings[j] in c.db.wmap
    ensures ok <==> AllUntouched(c.db, mappings)
  {
    for i := 0 to |mappings|
      invariant AllUntouched(c.db, mappings[..i])
    {
      var untouched := CheckMapping(c, mappings[i]);
      if !untouched {
        OneTouchedIsEnough(c.db, mappings, i);
        return false;
      }
      assert mappings[..i + 1][..i] == mappings[..i];
    }
    assert mappings[..|mappings|] == mappings;
    return true;
  }

  lemma MappingGuardedIff(db: Tables, u: UserId)
    requires u in db.wmap
    ensures MappingGuarded(db, u) <==> Untouched(db, u)
  {
    var m := db.wmap[u];
    assert Owned(db, u) == TasksOwnedBy(db, u) && TasksIn(db, m.workspaceId) == TasksLyingIn(db, m.workspaceId);
    MaxIdIs(m.legacyTaskMaxId, Owned(db, u));
    var key := MemberKey(m.workspaceId, u);
    assert MembersOf(db, m.workspaceId) == {key}
      <==> key in db.members && forall k :: k in db.members && k.workspaceId == m.workspaceId ==> k.userId == u by {
      if MembersOf(db, m.workspaceId) == {key} {
        assert key in MembersOf(db, m.workspaceId);
        forall k | k in db.members && k.workspaceId == m.workspaceId ensures k.userId == u {
          assert k in MembersOf(db, m.workspaceId);
        }
      }
    }
    forall id | id in TasksIn(db, m.workspaceId)
      ensures RowGuarded(db.tasks[id], u, m.migratedAt) <==> RowUntouched(db.tasks[id], u, m.migratedAt)
    {
    }
  }

  /** The guard, column by column. */
  lemma DowngradeChecksIff(db: Tables)
    ensures DowngradeChecks(db) <==> DowngradeAllowed(db)
  {
    forall u | u in db.wmap ensures MappingGuarded(db, u) <==> Untouched(db, u) { MappingGuardedIff(db, u); }
  }

  /** `_validate_downgrade`: every check over every mapping, before the first write. */
  method ValidateDowngrade(c: Connection) returns (mappings: seq<UserId>, ok: bool)
    requires LegacyColumns(c.db)
    ensures forall u :: u in mappings <==> u in c.db.wmap
    ensures ok <==> DowngradeAllowed(c.db)
    ensures ok <==> DowngradeChecks(c.db)
  {
    DowngradeChecksIff(c.db);
    mappings := InIdOrder(c.db.wmap.Keys);
    AllMappingsUntouched(c.db, mappings);
    ok := CheckMappings(c, mappings);
  }

  // ---------------------------------------------------------------- the removal

  function NulledRow(row: TaskRow): TaskRow {
    row.(workspaceId := None, creatorId := None, assigneeId := None, status := None, createdAt := None,
        updatedAt := None)
  }

  /** The row belongs to one of the given users and lies in that user's mapped workspace. */
  predicate MovedFor(db: Tables, row: TaskRow, users: set<UserId>) {
    UsesOwnersWorkspace(db, row) && row.ownerId.value in users
  }

  function TasksBack(db: Tables, users: set<UserId>): map<TaskId, TaskRow> {
    map id | id in db.tasks :: if MovedFor(db, db.tasks[id], users) then NulledRow(db.tasks[id]) else db.tasks[id]
  }

  function WorkspacesOf(db: Tables, users: set<UserId>): set<WorkspaceId> {
    set u | u in users && u in db.wmap :: db.wmap[u].workspaceId
  }

  function MembershipsOf(db: Tables, users: set<UserId>): set<MemberKey> {
    set u | u in users && u in db.wmap :: MemberKey(db.wmap[u].workspaceId, u)
  }

  /** After the map is emptied and the rows of the given users are gone. */
  function RowsRemoved(db: Tables, users: set<UserId>): Tables {
    db.(tasks := TasksBack(db, db.wmap.Keys), wmap := map[],
        members := db.members - MembershipsOf(db, users), workspaces := db.workspaces - WorkspacesOf(db, users))
  }

  /** The database after a downgrade: mapped tasks back to NULL, generated rows and the map gone, the rest as it was. */
  function Restored(db: Tables): Tables {
    RowsRemoved(db, db.wmap.Keys)
  }

  method ResetTasks(c: Connection, mappings: seq<UserId>)
    requires forall u :: u in mappings <==> u in c.db.wmap
    modifies c
    ensures c.db == old(c.db).(tasks := TasksBack(old(c.db), old(c.db).wmap.Keys))
  {
    ghost var before := c.db;
    ghost var done: set<UserId> := {};
    assert TasksBack(before, {}) == before.tasks;
    for i := 0 to |mappings|
      invariant forall u :: u in done <==> u in mappings[..i]
      invariant c.db == before.(tasks := TasksBack(before, done))
    {
      var u := mappings[i];
      assert u in mappings;
      var m := c.db.wmap[u];
      c.db := c.db.(tasks := map id | id in c.db.tasks ::
        if c.db.tasks[id].ownerId == Some(u) && c.db.tasks[id].workspaceId == Some(m.workspaceId)
        then NulledRow(c.db.tasks[id]) else c.db.tasks[id]);
      TasksBackStep(before, done, u);
      done := done + {u};
      assert mappings[..i + 1] == mappings[..i] + [u];
    }
    assert mappings[..|mappings|] == mappings;
    assert done == before.wmap.Keys;
  }

  lemma TasksBackStep(db: Tables, done: set<UserId>, u: UserId)
    requires u in db.wmap
    ensures var now := TasksBack(db, done);
            TasksBack(db, done + {u}) ==
              map id | id in now ::
                if now[id].ownerId == Some(u) && now[id].workspaceId == Some(db.wmap[u].workspaceId)
                then NulledRow(now[id]) else now[id]
  {
  }

  /** When its turn comes, a generated workspace is referenced by its one membership only. */
  lemma NothingRefers(db: Tables, done: set<UserId>, u: UserId)
    requires DowngradeAllowed(db) && u in db.wmap
    ensures var left := RowsRemoved(db, done);
            var ws := db.wmap[u].workspaceId;
            Unreferenced(left.(members := left.members - {MemberKey(ws, u)}), ws)
  {
    assert Untouched(db, u);
    var ws := db.wmap[u].workspaceId;
    OwnedIsWorkspace(db, u);
    forall id | id in db.tasks ensures TasksBack(db, db.wmap.Keys)[id].workspaceId != Some(ws) {
      if db.tasks[id].workspaceId == Some(ws) {
        assert id in TasksIn(db, ws);
        assert id in Owned(db, u);
      }
    }
    forall k | k in db.members && k.workspaceId == ws ensures k.userId == u { assert k in MembersOf(db, ws); }
  }

  lemma RowsRemovedStep(db: Tables, done: set<UserId>, u: UserId)
    requires u in db.wmap
    ensures RowsRemoved(db, done + {u}) ==
            RowsRemoved(db, done).(members := RowsRemoved(db, done).members - {MemberKey(db.wmap[u].workspaceId, u)},
                                   workspaces := RowsRemoved(db, done).workspaces - {db.wmap[u].workspaceId})
  {
    assert MembershipsOf(db, done + {u}) == MembershipsOf(db, done) + {MemberKey(db.wmap[u].workspaceId, u)};
    assert WorkspacesOf(db, done + {u}) == WorkspacesOf(db, done) + {db.wmap[u].workspaceId};
  }

  lemma NoRowsRemovedYet(db: Tables)
    ensures RowsRemoved(db, {}) == db.(tasks := TasksBack(db, db.wmap.Keys), wmap := map[])
  {
    assert MembershipsOf(db, {}) == {} && WorkspacesOf(db, {}) == {};
    assert db.members - {} == db.members && db.workspaces - {} == db.workspaces;
  }

  method DeleteOne(c: Connection, ghost before: Tables, ghost done: set<UserId>, u: UserId, ws: WorkspaceId)
    requires DowngradeAllowed(before) && c.db == RowsRemoved(before, done)
    requires u in before.wmap && ws == before.wmap[u].workspaceId
    modifies c
    ensures c.db == RowsRemoved(before, done + {u})
  {
    NothingRefers(before, done, u);
    RowsRemovedStep(before, done, u);
    c.DeleteMember(MemberKey(ws, u));
    c.DeleteWorkspace(ws);
  }

  method DeleteGenerated(c: Connection, ghost before: Tables, mappings: seq<UserId>,
                         workspaceOf: map<UserId, WorkspaceId>)
    requires DowngradeAllowed(before) && c.db == RowsRemoved(before, {})
    requires forall u :: u in mappings <==> u in before.wmap
    requires workspaceOf == map u | u in before.wmap :: before.wmap[u].workspaceId
    modifies c
    ensures c.db == Restored(before)
  {
    ghost var done: set<UserId> := {};
    for i := 0 to |mappings|
      invariant forall u :: u in done <==> u in mappings[..i]
      invariant c.db == RowsRemoved(before, done)
    {
      var u := mappings[i];
      assert u in mappings;
      DeleteOne(c, before, done, u, workspaceOf[u]);
      done := done + {u};
      assert mappings[..i + 1] == mappings[..i] + [u];
    }
    assert mappings[..|mappings|] == mappings;
    assert done == before.wmap.Keys;
  }

  /** `downgrade`: refused without a write, or everything generated is removed and no RESTRICT key is violated. */
  method Downgrade(c: Connection) returns (ok: bool)
    requires LegacyColumns(c.db)
    modifies c
    ensures ok <==> DowngradeAllowed(old(c.db))
    ensures !ok ==> c.db == old(c.db)
    ensures ok ==> c.db == Restored(old(c.db))
    ensures ok <==> DowngradeChecks(old(c.db))
    ensures ok ==> DowngradePromise(old(c.db), c.db)
  {
    ghost var before := c.db;
    var mappings, valid := ValidateDowngrade(c);
    if !valid {
      return false;
    }
    var workspaceOf := map u | u in c.db.wmap :: c.db.wmap[u].workspaceId;
    ResetTasks(c, mappings);
    c.db := c.db.(wmap := map[]);
    NoRowsRemovedYet(before);
    DeleteGenerated(c, before, mappings, workspaceOf);
    RestoredKeepsPromise(before);
    return true;
  }

  // ---------------------------------------------------------------- what it achieves

  lemma RestoredTask(db: Tables, id: TaskId)
    requires DowngradeAllowed(db) && id in db.tasks
    ensures TaskDowngraded(db, db.tasks[id], Restored(db).tasks[id])
  {
    var row := db.tasks[id];
    if LiesInMapped(db, row) {
      var u :| u in db.wmap && db.wmap[u].workspaceId == row.workspaceId.value;
      assert Untouched(db, u) && id in TasksIn(db, db.wmap[u].workspaceId);
      OwnedIsWorkspace(db, u);
      assert id in Owned(db, u);
    } else {
      assert !UsesOwnersWorkspace(db, row);
    }
  }

  lemma RestoredWorkspace(db: Tables, w: WorkspaceId)
    ensures w in Restored(db).workspaces <==> w in db.workspaces && !Mapped(db, w)
    ensures w in Restored(db).workspaces ==> w in db.workspaces && Restored(db).workspaces[w] == db.workspaces[w]
  {
    assert w in WorkspacesOf(db, db.wmap.Keys) <==> Mapped(db, w);
  }

  lemma RestoredMember(db: Tables, k: MemberKey)
    requires DowngradeAllowed(db)
    ensures k in Restored(db).members <==> k in db.members && !Mapped(db, k.workspaceId)
    ensures k in Restored(db).members ==> k in db.members && Restored(db).members[k] == db.members[k]
  {
    if k in db.members && Mapped(db, k.workspaceId) {
      var u :| u in db.wmap && db.wmap[u].workspaceId == k.workspaceId;
      assert Untouched(db, u) && k in MembersOf(db, k.workspaceId);
    }
  }

  /** An accepted downgrade leaves, column by column, what is promised. */
  lemma RestoredKeepsPromise(db: Tables)
    requires DowngradeAllowed(db)
    ensures DowngradePromise(db, Restored(db))
  {
    forall w { RestoredWorkspace(db, w); }
    forall k { RestoredMember(db, k); }
    forall id | id in db.tasks ensures TaskDowngraded(db, db.tasks[id], Restored(db).tasks[id]) {
      RestoredTask(db, id);
    }
  }

  /** Foreign keys still hold afterwards. */
  lemma DowngradeKeepsForeignKeys(db: Tables)
    requires Enforced(db) && DowngradeAllowed(db)
    ensures WorkspacesEnforced(Restored(db)) && MembersEnforced(Restored(db)) && TasksEnforced(Restored(db))
  {
    var after := Restored(db);
    forall k | k in db.members && k.workspaceId in WorkspacesOf(db, db.wmap.Keys)
      ensures k in MembershipsOf(db, db.wmap.Keys)
    {
      var u :| u in db.wmap && db.wmap[u].workspaceId == k.workspaceId;
      assert Untouched(db, u) && k in MembersOf(db, k.workspaceId);
    }
    forall id | id in after.tasks ensures RowReferences(after, after.tasks[id]) { RestoredRowRefers(db, id); }
  }

  lemma RestoredRowRefers(db: Tables, id: TaskId)
    requires Enforced(db) && DowngradeAllowed(db) && id in db.tasks
    ensures RowReferences(Restored(db), Restored(db).tasks[id])
  {
    var row := db.tasks[id];
    assert RowReferences(db, row);
    if row.workspaceId.Some? && row.workspaceId.value in WorkspacesOf(db, db.wmap.Keys) {
      var u :| u in db.wmap && db.wmap[u].workspaceId == row.workspaceId.value;
      assert Untouched(db, u);
      OwnedIsWorkspace(db, u);
      assert id in TasksIn(db, db.wmap[u].workspaceId);
      assert id in Owned(db, u);
    }
  }

  predicate NewColumnsNull(row: TaskRow) {
    NulledRow(row) == row
  }

  /** Round trip: after an upgrade of any database whose new columns are NULL, the downgrade is accepted and restores
      users, workspaces, memberships, tasks and the empty map; only the id counter has moved on. */
  lemma UpgradeThenDowngrade(before: Tables, db: Tables, now: Time)
    requires Enforced(before) && LegacyColumns(before) && before.wmap == map[]
    requires forall id :: id in before.tasks ==> NewColumnsNull(before.tasks[id])
    requires Backfilled(before, db, now) && db.wmap.Keys == before.users.Keys && BackfillFacts(db)
    ensures DowngradeAllowed(db)
    ensures Restored(db) == before.(nextWorkspaceId := db.nextWorkspaceId)
  {
    NextIdIsNew(before, db, now);
    forall u | u in db.wmap ensures Untouched(db, u) { UpgradedIsUntouched(before, db, u, now); }
    RestoresTasks(before, db, now);
    RestoresMembers(before, db, now);
    RestoresWorkspaces(before, db, now);
  }

  lemma UpgradedIsUntouched(before: Tables, db: Tables, u: UserId, now: Time)
    requires MapFilled(before, db, now) && TasksMoved(before, db, now) && db.users == before.users
    requires BackfillFacts(db) && u in db.wmap
    ensures Untouched(db, u)
  {
    assert UserBackfilled(before, db, u, now) && MetadataCurrent(db, u);
    FactsMakeBijection(db, u, u);
    OnlyOwnMembership(db, u);
    UpgradedTasksUntouched(before, db, u, now);
  }

  lemma OnlyOwnMembership(db: Tables, u: UserId)
    requires u in db.wmap && PersonalWorkspace(db, u)
    ensures MembersOf(db, db.wmap[u].workspaceId) == {MemberKey(db.wmap[u].workspaceId, u)}
  {
  }

  lemma UpgradedTasksUntouched(before: Tables, db: Tables, u: UserId, now: Time)
    requires u in db.wmap && db.wmap[u].migratedAt == now && TasksMoved(before, db, now) && TasksBackfilled(db)
    requires Owned(db, u) == TasksIn(db, db.wmap[u].workspaceId)
    ensures TasksUntouched(db, u)
  {
    forall id | id in TasksIn(db, db.wmap[u].workspaceId) ensures RowUntouched(db.tasks[id], u, now) {
      assert id in Owned(db, u);
      assert RowMoved(before, db, id, now);
    }
  }

  lemma RestoresTasks(before: Tables, db: Tables, now: Time)
    requires TasksMoved(before, db, now) && TasksBackfilled(db)
    requires forall id :: id in before.tasks ==> NewColumnsNull(before.tasks[id])
    ensures TasksBack(db, db.wmap.Keys) == before.tasks
  {
    forall id | id in before.tasks ensures TasksBack(db, db.wmap.Keys)[id] == before.tasks[id] {
      assert RowMoved(before, db, id, now) && UsesOwnersWorkspace(db, db.tasks[id]);
      assert NewColumnsNull(before.tasks[id]);
    }
  }

  lemma RestoresMembers(before: Tables, db: Tables, now: Time)
    requires MembersAdded(before, db) && MembersEnforced(before)
    requires forall u :: u in db.wmap ==> db.wmap[u].workspaceId !in before.workspaces
    ensures db.members - MembershipsOf(db, db.wmap.Keys) == before.members
  {
    var left := db.members - MembershipsOf(db, db.wmap.Keys);
    forall k | k in db.members ensures k in before.members <==> k !in MembershipsOf(db, db.wmap.Keys) {
      if k !in before.members { assert Generated(db, k.workspaceId, k.userId); }
    }
    assert left.Keys == before.members.Keys;
  }

  lemma RestoresWorkspaces(before: Tables, db: Tables, now: Time)
    requires WorkspacesAdded(before, db)
    requires forall u :: u in db.wmap ==> db.wmap[u].workspaceId !in before.workspaces
    ensures db.workspaces - WorkspacesOf(db, db.wmap.Keys) == before.workspaces
  {
    var left := db.workspaces - WorkspacesOf(db, db.wmap.Keys);
    forall w | w in db.workspaces ensures w in before.workspaces <==> w !in WorkspacesOf(db, db.wmap.Keys) {
      if w !in before.workspaces { assert Generated(db, w, db.workspaces[w].createdById); }
    }
    assert left.Keys == before.workspaces.Keys;
  }
}
