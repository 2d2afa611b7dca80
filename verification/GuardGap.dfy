/** What the downgrade guard of revision c1e8d5a4b762 lets pass, compared with what the backfill wrote. */
module GuardGap {
  import opened Wrappers
  import opened Policies
  import opened Schema
  import opened MigrationTables
  import opened MigrationPromises
  import opened Backfill
  import opened BackfillDowngrade

  // ---------------------------------------------------------------- one row

  /** The columns the backfill fills, and the downgrade resets. */
  predicate SameGenerated(a: TaskRow, b: TaskRow) {
    && a.workspaceId == b.workspaceId && a.creatorId == b.creatorId && a.assigneeId == b.assigneeId
    && a.status == b.status && a.createdAt == b.createdAt && a.updatedAt == b.updatedAt
  }

  predicate KeptOrNull<T(==)>(column: Option<T>, written: Option<T>) {
    column == None || column == written
  }

  predicate HasNull(row: TaskRow) {
    row.creatorId.None? || row.status.None? || row.createdAt.None? || row.updatedAt.None?
  }

  /** `completed` was flipped, and `status` with it. */
  predicate MovedTogether(row: TaskRow, written: TaskRow) {
    row.completed != written.completed && row.status == Some(if row.completed == Some(true) then Done else Todo)
  }

  /** The changes of a generated column that the guard does not see. */
  predicate HiddenChange(row: TaskRow, written: TaskRow) {
    HasNull(row) || MovedTogether(row, written) || row.ownerId != written.ownerId
  }

  /** What a row of the generated workspace of `user` may look like, whoever it was written for: owned by `user`, and
      otherwise as written or NULL, or with a status that still matches `completed`. Title, description and priority are
      not looked at. */
  predicate EditPasses(row: TaskRow, written: TaskRow, user: UserId) {
    && row.ownerId == Some(user)
    && row.assigneeId.None?
    && NullOr(row.creatorId, user)
    && KeptOrNull(row.createdAt, written.createdAt)
    && KeptOrNull(row.updatedAt, written.updatedAt)
    && (row.status.None? || (row.status == written.status && row.completed == written.completed)
        || MovedTogether(row, written))
  }

  /** For any row of a generated workspace, and the row the backfill wrote for that task in the same or another one: the
      guard accepts it exactly if the edit is of that kind; and it accepts it although a generated column changed
      exactly if, on top, one of four columns is NULL, `completed` and `status` were changed together, or the owner
      changed. */
  lemma GuardAcceptsIff(legacy: TaskRow, row: TaskRow, from: WorkspaceId, author: UserId, ws: WorkspaceId, user: UserId,
                        now: Time)
    requires legacy.ownerId == Some(author) && legacy.completed.Some? && (ws == from <==> user == author)
    requires row.ownerId.Some? && row.completed.Some? && row.workspaceId == Some(ws)
    ensures var written := FilledRow(legacy, from, author, now);
            && (GuardDefect(row, user, now) != Yes <==> EditPasses(row, written, user))
            && (GuardDefect(row, user, now) != Yes && !SameGenerated(row, written)
                <==> EditPasses(row, written, user) && HiddenChange(row, written))
  {
    GuardDefectIff(row, user, now);
    BooleanColumns(legacy, row);
  }

  lemma BooleanColumns(legacy: TaskRow, row: TaskRow)
    requires legacy.completed.Some? && row.completed.Some?
    ensures row.completed != legacy.completed <==> ((row.completed == Some(true)) != (legacy.completed == Some(true)))
  {
    if row.completed.value { } else { assert row.completed == Some(false); }
    if legacy.completed.value { } else { assert legacy.completed == Some(false); }
  }

  // ---------------------------------------------------------------- the whole database

  /** Any later database in which the map and the legacy columns still exist. */
  ghost predicate Later(written: Tables, db: Tables) {
    db.wmap == written.wmap && LegacyColumns(db)
  }

  /** The workspace row is as written, but for a new name of its user. */
  predicate WorkspaceKept(written: Tables, db: Tables, u: UserId)
    requires u in db.wmap
  {
    var ws := db.wmap[u].workspaceId;
    && u in db.users && ws in db.workspaces && ws in written.workspaces
    && db.workspaces[ws] == written.workspaces[ws].(name := PersonalWorkspaceName(db.users[u]))
  }

  predicate MembershipKept(written: Tables, db: Tables, u: UserId)
    requires u in db.wmap
  {
    var key := MemberKey(db.wmap[u].workspaceId, u);
    MembersOf(db, key.workspaceId) == {key} && key in written.members && db.members[key] == written.members[key]
  }

  /** The user owns as many tasks as at the backfill, with the same largest id. */
  predicate NumbersKept(written: Tables, db: Tables, u: UserId) {
    |Owned(db, u)| == |Owned(written, u)| && MaxId(Owned(db, u)) == MaxId(Owned(written, u))
  }

  ghost predicate PartsKept(written: Tables, db: Tables) {
    forall u :: u in db.wmap ==> WorkspaceKept(written, db, u) && MembershipKept(written, db, u)
  }

  ghost predicate AllNumbersKept(written: Tables, db: Tables) {
    forall u :: u in db.wmap ==> NumbersKept(written, db, u)
  }

  /** The row belongs to a mapped user or lies in a mapped workspace. */
  ghost predicate Concerned(db: Tables, row: TaskRow) {
    || (row.ownerId.Some? && row.ownerId.value in db.wmap)
    || (exists u :: u in db.wmap && row.workspaceId == Some(db.wmap[u].workspaceId))
  }

  /** It lies in its owner's mapped workspace, and looks as the guard wants it there. */
  predicate RowFits(db: Tables, row: TaskRow, now: Time) {
    UsesOwnersWorkspace(db, row) && RowUntouched(row, row.ownerId.value, now)
  }

  ghost predicate AllRowsFit(db: Tables, now: Time) {
    forall id :: id in db.tasks && Concerned(db, db.tasks[id]) ==> RowFits(db, db.tasks[id], now)
  }

  /** Whatever happened to users, workspaces, memberships and tasks since the backfill: the downgrade is accepted if and
      only if the generated workspaces and memberships are as written, every mapped user owns the recorded number of
      tasks with the recorded largest id, and every task of a mapped user or workspace fits. */
  lemma EditedDowngradeIff(before: Tables, written: Tables, db: Tables, now: Time)
    requires WrittenBy(before, written, now) && Later(written, db)
    ensures DowngradeAllowed(db) <==> PartsKept(written, db) && AllNumbersKept(written, db) && AllRowsFit(db, now)
  {
    forall u | u in db.wmap ensures PartsMatch(written, db, u, now) { PartsMatchWritten(before, written, db, u, now); }
    assert OneToOne(db) by { MapIsOneToOne(written); }
    if DowngradeAllowed(db) {
      AllowedMeansKept(written, db, now);
    } else if PartsKept(written, db) && AllNumbersKept(written, db) && AllRowsFit(db, now) {
      KeptMeansAllowed(written, db, now);
    }
  }

  /** The guard's checks on one user, against what was written. */
  ghost predicate PartsMatch(written: Tables, db: Tables, u: UserId, now: Time) {
    && u in db.wmap && db.wmap[u].migratedAt == now
    && (WorkspaceUntouched(db, u) <==> WorkspaceKept(written, db, u))
    && (MembershipUntouched(db, u) <==> MembershipKept(written, db, u))
    && |Owned(written, u)| == db.wmap[u].legacyTaskCount && MaxId(Owned(written, u)) == db.wmap[u].legacyTaskMaxId
  }

  lemma PartsMatchWritten(before: Tables, written: Tables, db: Tables, u: UserId, now: Time)
    requires WrittenBy(before, written, now) && db.wmap == written.wmap && u in db.wmap
    ensures PartsMatch(written, db, u, now)
  {
    assert UserBackfilled(before, written, u, now);
    assert MetadataCurrent(written, u);
  }

  lemma AllowedMeansKept(written: Tables, db: Tables, now: Time)
    requires DowngradeAllowed(db) && forall u :: u in db.wmap ==> PartsMatch(written, db, u, now)
    ensures PartsKept(written, db) && AllNumbersKept(written, db) && AllRowsFit(db, now)
  {
    forall u | u in db.wmap
      ensures WorkspaceKept(written, db, u) && MembershipKept(written, db, u) && NumbersKept(written, db, u)
    {
      assert Untouched(db, u) && PartsMatch(written, db, u, now);
    }
    forall id | id in db.tasks && Concerned(db, db.tasks[id]) ensures RowFits(db, db.tasks[id], now) {
      var row := db.tasks[id];
      var u :| u in db.wmap && (row.ownerId == Some(u) || row.workspaceId == Some(db.wmap[u].workspaceId));
      assert PartsMatch(written, db, u, now);
      AllowedRowFits(db, id, u, now);
    }
  }

  lemma AllowedRowFits(db: Tables, id: TaskId, u: UserId, now: Time)
    requires DowngradeAllowed(db) && id in db.tasks && u in db.wmap && db.wmap[u].migratedAt == now
    requires db.tasks[id].ownerId == Some(u) || db.tasks[id].workspaceId == Some(db.wmap[u].workspaceId)
    ensures RowFits(db, db.tasks[id], now)
  {
    assert id in Owned(db, u) || id in TasksIn(db, db.wmap[u].workspaceId);
    assert Untouched(db, u);
    OwnedIsWorkspace(db, u);
  }

  lemma KeptMeansAllowed(written: Tables, db: Tables, now: Time)
    requires OneToOne(db) && forall u :: u in db.wmap ==> PartsMatch(written, db, u, now)
    requires PartsKept(written, db) && AllNumbersKept(written, db) && AllRowsFit(db, now)
    ensures DowngradeAllowed(db)
  {
    forall u | u in db.wmap ensures Untouched(db, u) {
      assert PartsMatch(written, db, u, now) && NumbersKept(written, db, u);
      FittingRowsUntouched(db, u, now);
    }
  }

  lemma FittingRowsUntouched(db: Tables, u: UserId, now: Time)
    requires OneToOne(db) && AllRowsFit(db, now) && u in db.wmap && db.wmap[u].migratedAt == now
    ensures Owned(db, u) == TasksIn(db, db.wmap[u].workspaceId) && TasksUntouched(db, u)
  {
    forall id | id in db.tasks && (id in Owned(db, u) || id in TasksIn(db, db.wmap[u].workspaceId))
      ensures db.tasks[id].ownerId == Some(u) && RowFits(db, db.tasks[id], now)
    {
      assert Concerned(db, db.tasks[id]);
      assert RowFits(db, db.tasks[id], now);
    }
  }

  // ---------------------------------------------------------------- accepted, although changed

  /** In an accepted database, a row of a task the backfill wrote differs in a generated column exactly if it has a
      NULL, its `completed` and `status` moved together, or it has another owner. */
  lemma AcceptedRowChangedIff(before: Tables, written: Tables, db: Tables, id: TaskId, now: Time)
    requires WrittenBy(before, written, now) && Later(written, db) && DowngradeAllowed(db)
    requires id in db.tasks && id in written.tasks
    ensures !SameGenerated(db.tasks[id], written.tasks[id]) <==> HiddenChange(db.tasks[id], written.tasks[id])
  {
    EditedDowngradeIff(before, written, db, now);
    assert OneToOne(db) by { MapIsOneToOne(written); }
    assert RowMoved(before, written, id, now) && UsesOwnersWorkspace(written, written.tasks[id]);
    var row, author := db.tasks[id], written.tasks[id].ownerId.value;
    if Concerned(db, row) {
      var user := row.ownerId.value;
      assert RowFits(db, row, now);
      GuardDefectIff(row, user, now);
      GuardAcceptsIff(before.tasks[id], row, db.wmap[author].workspaceId, author, db.wmap[user].workspaceId, user, now);
    } else {
      assert author in db.wmap;
    }
  }

  /** A renamed user is noticed: without a new name of the workspace the downgrade is refused. */
  lemma RenameIsRefused(before: Tables, written: Tables, db: Tables, u: UserId, now: Time)
    requires WrittenBy(before, written, now) && db.wmap == written.wmap && u in db.wmap
    requires u in db.users && u in written.users && db.users[u] != written.users[u]
    requires db.workspaces == written.workspaces
    ensures !DowngradeAllowed(db)
  {
    WrittenKeepsPromise(before, written, now);
    assert UserUpgraded(before, written, u, now);
    SamePersonalName(written.users[u], db.users[u]);
    assert !MappingGuarded(db, u);
    DowngradeChecksIff(db);
  }

  lemma SamePersonalName(a: string, b: string)
    ensures "Personal Workspace - " + a == "Personal Workspace - " + b ==> a == b
  {
    assert ("Personal Workspace - " + a)[|"Personal Workspace - "|..] == a;
    assert ("Personal Workspace - " + b)[|"Personal Workspace - "|..] == b;
  }

  /** Nothing the backfill generated has changed: names and rows of the mapped workspaces, their memberships, and the
      generated columns of exactly the tasks there were. */
  ghost predicate GeneratedUnchanged(written: Tables, db: Tables) {
    && PartsKept(written, db)
    && (forall u :: u in db.wmap ==> NameKept(written, db, u))
    && db.tasks.Keys == written.tasks.Keys
    && forall id :: id in db.tasks ==> SameGenerated(db.tasks[id], written.tasks[id])
  }

  predicate NameKept(written: Tables, db: Tables, u: UserId) {
    u in db.users && u in written.users && db.users[u] == written.users[u]
  }

  /** Exactly when an accepted downgrade removes unchanged data only: no mapped user was renamed (with the workspace),
      no task was created or deleted, and no row hides a change. */
  lemma OnlyUnchangedIff(before: Tables, written: Tables, db: Tables, now: Time)
    requires WrittenBy(before, written, now) && Later(written, db) && DowngradeAllowed(db)
    ensures GeneratedUnchanged(written, db)
       <==> && (forall u :: u in db.wmap ==> NameKept(written, db, u))
            && db.tasks.Keys == written.tasks.Keys
            && forall id :: id in db.tasks && id in written.tasks ==> !HiddenChange(db.tasks[id], written.tasks[id])
  {
    assert PartsKept(written, db) by { EditedDowngradeIff(before, written, db, now); }
    forall id | id in db.tasks && id in written.tasks ensures ChangeSeen(written, db, id) {
      AcceptedRowChangedIff(before, written, db, id, now);
    }
    RowsUnchangedIff(written, db);
  }

  predicate ChangeSeen(written: Tables, db: Tables, id: TaskId)
    requires id in db.tasks && id in written.tasks
  {
    !SameGenerated(db.tasks[id], written.tasks[id]) <==> HiddenChange(db.tasks[id], written.tasks[id])
  }

  lemma RowsUnchangedIff(written: Tables, db: Tables)
    requires PartsKept(written, db)
    requires forall id :: id in db.tasks && id in written.tasks ==> ChangeSeen(written, db, id)
    ensures GeneratedUnchanged(written, db)
       <==> && (forall u :: u in db.wmap ==> NameKept(written, db, u))
            && db.tasks.Keys == written.tasks.Keys
            && forall id :: id in db.tasks && id in written.tasks ==> !HiddenChange(db.tasks[id], written.tasks[id])
  {
    if db.tasks.Keys == written.tasks.Keys {
      forall id | id in db.tasks
        ensures SameGenerated(db.tasks[id], written.tasks[id]) <==> !HiddenChange(db.tasks[id], written.tasks[id])
      {
        assert ChangeSeen(written, db, id);
      }
    }
  }

  /** For edits of the task table alone the numbers and the rows decide. */
  lemma TaskEditsDowngradeIff(before: Tables, written: Tables, db: Tables, now: Time)
    requires WrittenBy(before, written, now) && db == written.(tasks := db.tasks) && LegacyColumns(db)
    ensures DowngradeAllowed(db) <==> AllNumbersKept(written, db) && AllRowsFit(db, now)
  {
    assert PartsKept(written, db) by {
      forall u | u in db.wmap ensures WorkspaceKept(written, db, u) && MembershipKept(written, db, u) {
        SameParts(before, written, db, u, now);
      }
    }
    EditedDowngradeIff(before, written, db, now);
  }

  lemma SameParts(before: Tables, written: Tables, db: Tables, u: UserId, now: Time)
    requires MapFilled(before, written, now) && written.users == before.users && WorkspacesPersonal(written)
    requires db == written.(tasks := db.tasks) && u in db.wmap
    ensures WorkspaceKept(written, db, u) && MembershipKept(written, db, u)
  {
    assert UserBackfilled(before, written, u, now) && PersonalWorkspace(written, u);
    OnlyOwnMembership(written, u);
    assert MembersOf(db, db.wmap[u].workspaceId) == MembersOf(written, db.wmap[u].workspaceId);
  }

  /** The downgrade leaves the legacy columns as they are, so edits of those survive it. */
  lemma DowngradeKeepsLegacyColumns(db: Tables, id: TaskId)
    requires id in db.tasks
    ensures id in Restored(db).tasks && Restored(db).tasks[id].completed == db.tasks[id].completed
            && Restored(db).tasks[id].title == db.tasks[id].title
            && Restored(db).tasks[id].ownerId == db.tasks[id].ownerId
  {
  }

  /** What the guard wants to find again, as the backfill leaves it. */
  ghost predicate Editable(written: Tables, now: Time) {
    && OneToOne(written)
    && forall u :: u in written.wmap ==>
         && PartsMatch(written, written, u, now)
         && WorkspaceKept(written, written, u) && MembershipKept(written, written, u)
  }

  lemma WrittenIsEditable(before: Tables, written: Tables, now: Time)
    requires WrittenBy(before, written, now)
    ensures Editable(written, now)
  {
    MapIsOneToOne(written);
    forall u | u in written.wmap
      ensures PartsMatch(written, written, u, now)
      ensures WorkspaceKept(written, written, u) && MembershipKept(written, written, u)
    {
      PartsMatchWritten(before, written, written, u, now);
      SameParts(before, written, written, u, now);
    }
  }

  lemma EditedParts(written: Tables, db: Tables, u: UserId, now: Time)
    requires Editable(written, now) && db == written.(tasks := db.tasks) && u in db.wmap
    ensures PartsMatch(written, db, u, now) && WorkspaceKept(written, db, u) && MembershipKept(written, db, u)
  {
    assert PartsMatch(written, written, u, now) && MembershipKept(written, written, u);
    assert MembersOf(db, db.wmap[u].workspaceId) == MembersOf(written, db.wmap[u].workspaceId);
  }

  /** So an edit of the task table that keeps the numbers and fits is accepted. */
  lemma FittingEditAllowed(written: Tables, db: Tables, now: Time)
    requires Editable(written, now) && db == written.(tasks := db.tasks)
    requires AllNumbersKept(written, db) && AllRowsFit(db, now)
    ensures DowngradeAllowed(db)
  {
    forall u | u in db.wmap
      ensures PartsMatch(written, db, u, now) && WorkspaceKept(written, db, u) && MembershipKept(written, db, u)
    {
      EditedParts(written, db, u, now);
    }
    KeptMeansAllowed(written, db, now);
  }

  lemma RowWritten(before: Tables, written: Tables, id: TaskId, now: Time)
    requires WrittenBy(before, written, now) && id in before.tasks
    ensures id in written.tasks && before.tasks[id].ownerId.Some? && before.tasks[id].ownerId.value in written.wmap
    ensures var owner := before.tasks[id].ownerId.value;
            && written.wmap[owner].migratedAt == now
            && written.tasks[id] == FilledRow(before.tasks[id], written.wmap[owner].workspaceId, owner, now)
  {
    assert RowMoved(before, written, id, now) && UsesOwnersWorkspace(written, written.tasks[id]);
    assert UserBackfilled(before, written, before.tasks[id].ownerId.value, now);
  }
}
