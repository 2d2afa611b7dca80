/** Revision d4b6e8f1a203: the final task schema, without `owner_id` and `completed`, and the rebuild of both. */
module Contract {
  import opened Wrappers
  import opened Policies
  import opened Schema
  import opened MigrationTables
  import opened MigrationPromises
  import opened Backfill

  // ---------------------------------------------------------------- the validation

  predicate ValidPriority(priority: int) {
    1 <= priority <= 5
  }

  function ContractDefect(row: TaskRow): Truth {
    Or(Or(Or(Or(Known(row.workspaceId.None?), Known(row.creatorId.None?)), Known(row.status.None?)),
          Or(Known(row.createdAt.None?), Known(row.updatedAt.None?))),
       Or(Or(Differs(row.creatorId, row.ownerId),
             Or(And(Known(row.completed == Some(true)), Differs(row.status, Some(Done))),
                And(Known(row.completed == Some(false)), Differs(row.status, Some(Todo))))),
          Or(Known(!TrimmedFits(row.title)), Known(!ValidPriority(row.priority)))))
  }

  /** The row can lose its legacy columns: the new ones say the same. */
  predicate RowFinal(row: TaskRow) {
    && row.workspaceId.Some? && row.createdAt.Some? && row.updatedAt.Some?
    && row.creatorId.Some? && row.creatorId == row.ownerId
    && row.status == Some(if row.completed == Some(true) then Done else Todo)
    && TrimmedFits(row.title) && ValidPriority(row.priority)
  }

  lemma ContractDefectIff(row: TaskRow)
    requires row.ownerId.Some? && row.completed.Some?
    ensures ContractDefect(row) == Yes <==> !RowFinal(row)
  {
    if row.status.Some? && row.creatorId.Some? {
      assert Differs(row.creatorId, row.ownerId) == Yes <==> row.creatorId != row.ownerId;
      assert Differs(row.status, Some(Done)) == Yes <==> row.status != Some(Done);
      assert Differs(row.status, Some(Todo)) == Yes <==> row.status != Some(Todo);
      if row.completed == Some(true) {
      } else {
        assert row.completed.value == false;
        assert row.completed == Some(false);
      }
    }
  }

  predicate References(db: Tables, row: TaskRow) {
    row.workspaceId.Some? && row.workspaceId.value in db.workspaces && row.creatorId.Some?
        && row.creatorId.value in db.users
  }

  ghost predicate MapComplete(db: Tables) {
    db.wmap.Keys == db.users.Keys && forall u :: u in db.wmap ==> u in MappedWithOwner(db)
  }

  ghost predicate ContractFacts(db: Tables) {
    MapComplete(db) && forall id :: id in db.tasks ==> TaskFinalizable(db, db.tasks[id])
  }

  predicate TaskFinalizable(db: Tables, row: TaskRow) {
    RowFinal(row) && References(db, row) && UsesOwnersWorkspace(db, row)
  }

  method ValidateTasks(c: Connection) returns (ok: bool)
    requires LegacyColumns(c.db)
    ensures ok <==> forall id :: id in c.db.tasks ==> TaskFinalizable(c.db, c.db.tasks[id])
  {
    var invalid := set id | id in c.db.tasks && ContractDefect(c.db.tasks[id]) == Yes;
    var orphans := set id | id in c.db.tasks && !References(c.db, c.db.tasks[id]);
    forall id | id in c.db.tasks
      ensures id in invalid <==> !RowFinal(c.db.tasks[id])
    {
      ContractDefectIff(c.db.tasks[id]);
    }
    AllPass(c.db.tasks.Keys, MappedTasks(c.db));
    if |invalid| != 0 {
      assert exists id :: id in invalid;
      return false;
    }
    if |orphans| != 0 {
      assert exists id :: id in orphans;
      return false;
    }
    assert invalid == {} && orphans == {};
    forall id | id in c.db.tasks ensures RowFinal(c.db.tasks[id]) && References(c.db, c.db.tasks[id]) {
      assert id !in invalid && id !in orphans;
    }
    return |MappedTasks(c.db)| == |c.db.tasks|;
  }

  lemma RowContractableIff(db: Tables, row: TaskRow)
    requires row.ownerId.Some? && row.completed.Some?
    ensures RowContractable(db, row) && row.ownerId.value in db.users <==> TaskFinalizable(db, row)
  {
    TrimmedFitsIff(row.title);
    BooleanStatus(row);
  }

  /** The facts of the contract, column by column. */
  lemma ContractChecksIff(db: Tables)
    requires LegacyColumns(db)
    ensures ContractChecks(db) <==> ContractFacts(db)
  {
    forall id | id in db.tasks ensures RowContractable(db, db.tasks[id]) <==> TaskFinalizable(db, db.tasks[id]) {
      RowContractableIff(db, db.tasks[id]);
    }
  }

  /** `_validate_upgrade`, on row data; the dynamic foreign-key name is schema shape. */
  method ValidateUpgrade(c: Connection) returns (ok: bool)
    requires LegacyColumns(c.db)
    ensures ok <==> ContractFacts(c.db)
    ensures ok <==> ContractChecks(c.db)
  {
    ContractChecksIff(c.db);
    UserCountsMeanTotal(c.db);
    AllPass(c.db.wmap.Keys, MappedWithOwner(c.db));
    if |c.db.wmap| != |c.db.users| || |Unmapped(c.db)| != 0 {
      return false;
    }
    if |MappedWithOwner(c.db)| != |c.db.wmap| {
      return false;
    }
    ok := ValidateTasks(c);
  }

  // ---------------------------------------------------------------- the data effects

  function WithoutLegacy(row: TaskRow): TaskRow {
    row.(ownerId := None, completed := None)
  }

  function WithLegacy(row: TaskRow): TaskRow {
    row.(ownerId := row.creatorId, completed := Some(row.status == Some(Done)))
  }

  function Finalized(db: Tables): Tables {
    db.(tasks := map id | id in db.tasks :: WithoutLegacy(db.tasks[id]))
  }

  function Rebuilt(db: Tables): Tables {
    db.(tasks := map id | id in db.tasks :: WithLegacy(db.tasks[id]))
  }

  /** DROP COLUMN `owner_id`. */
  function WithoutOwners(db: Tables): Tables {
    db.(tasks := map id | id in db.tasks :: db.tasks[id].(ownerId := None))
  }

  /** DROP COLUMN `completed`. */
  function WithoutCompleted(db: Tables): Tables {
    db.(tasks := map id | id in db.tasks :: db.tasks[id].(completed := None))
  }

  lemma ColumnsDropped(db: Tables)
    ensures WithoutCompleted(WithoutOwners(db)) == Finalized(db) && ContractPromise(db, Finalized(db))
  {
    assert WithoutCompleted(WithoutOwners(db)).tasks == Finalized(db).tasks;
  }

  method Upgrade(c: Connection) returns (ok: bool)
    requires LegacyColumns(c.db)
    modifies c
    ensures ok <==> ContractFacts(old(c.db))
    ensures !ok ==> c.db == old(c.db)
    ensures ok ==> c.db == Finalized(old(c.db))
    ensures ok <==> ContractChecks(old(c.db))
    ensures ok ==> ContractPromise(old(c.db), c.db)
  {
    ok := ValidateUpgrade(c);
    if !ok {
      return;
    }
    c.db := WithoutOwners(c.db);
    c.db := WithoutCompleted(c.db);
    ColumnsDropped(old(c.db));
  }

  predicate Convertible(row: TaskRow) {
    row.creatorId.Some? && row.status.Some?
  }

  /** ADD COLUMN: both legacy columns, NULL in every row. */
  function WithEmptyColumns(db: Tables): Tables {
    db.(tasks := map id | id in db.tasks :: db.tasks[id].(ownerId := None, completed := None))
  }

  /** The UPDATE that fills them. */
  function WithFilledColumns(db: Tables): Tables {
    db.(tasks := map id | id in db.tasks ::
          db.tasks[id].(ownerId := db.tasks[id].creatorId, completed := Some(db.tasks[id].status == Some(Done))))
  }

  lemma RebuiltKeepsPromise(db: Tables)
    ensures WithFilledColumns(WithEmptyColumns(db)) == Rebuilt(db) && RebuildPromise(db, Rebuilt(db))
  {
    assert WithFilledColumns(WithEmptyColumns(db)).tasks == Rebuilt(db).tasks;
  }

  /** `downgrade`: the check after the rewrite never fails once the check before it passed. */
  method Downgrade(c: Connection) returns (ok: bool)
    modifies c
    ensures ok <==> forall id :: id in old(c.db).tasks ==> Convertible(old(c.db).tasks[id])
    ensures !ok ==> c.db == old(c.db)
    ensures ok ==> c.db == Rebuilt(old(c.db)) && LegacyColumns(c.db)
    ensures ok <==> forall id :: id in old(c.db).tasks ==>
                      old(c.db).tasks[id].creatorId != None && old(c.db).tasks[id].status != None
    ensures ok ==> RebuildPromise(old(c.db), c.db)
  {
    var invalid := set id | id in c.db.tasks && !Convertible(c.db.tasks[id]);
    if |invalid| != 0 {
      assert exists id :: id in invalid;
      return false;
    }
    assert invalid == {};
    forall id | id in c.db.tasks ensures Convertible(c.db.tasks[id]) { assert id !in invalid; }
    c.db := WithEmptyColumns(c.db);
    c.db := WithFilledColumns(c.db);
    RebuiltKeepsPromise(old(c.db));
    var nulls := set id | id in c.db.tasks && (c.db.tasks[id].ownerId.None? || c.db.tasks[id].completed.None?);
    assert nulls == {};
    return |nulls| == 0;
  }

  // ---------------------------------------------------------------- what they achieve

  /** Dropping and rebuilding the legacy columns is the identity on every accepted database. */
  lemma ContractRoundTrip(db: Tables)
    requires LegacyColumns(db) && ContractFacts(db)
    ensures Rebuilt(Finalized(db)) == db
    ensures forall id :: id in Finalized(db).tasks ==> Convertible(Finalized(db).tasks[id])
  {
    forall id | id in db.tasks ensures WithLegacy(WithoutLegacy(db.tasks[id])) == db.tasks[id] {
      assert RowFinal(db.tasks[id]);
      if db.tasks[id].completed == Some(true) {
      } else {
        assert db.tasks[id].completed.value == false;
        assert db.tasks[id].completed == Some(false);
      }
    }
    assert Rebuilt(Finalized(db)).tasks == db.tasks;
  }

  predicate ReadyAgain(db: Tables, row: TaskRow) {
    row.status != Some(InProgress) && row.creatorId.Some? && row.creatorId.value in db.wmap
    && row.workspaceId == Some(db.wmap[row.creatorId.value].workspaceId)
  }

  /** Every column the final schema requires. */
  predicate FinalColumns(db: Tables, row: TaskRow) {
    References(db, row) && row.status.Some? && row.createdAt.Some? && row.updatedAt.Some?
    && TrimmedFits(row.title) && ValidPriority(row.priority)
  }

  lemma RowReadyAgain(db: Tables, row: TaskRow)
    requires FinalColumns(db, row)
    ensures TaskFinalizable(db, WithLegacy(row)) <==> ReadyAgain(db, row)
  {
    match row.status.value
    case Todo =>
    case InProgress =>
    case Done =>
  }

  /** Exactly when a downgraded final database can be upgraded again: no task is IN_PROGRESS, and every task still lies
      in its creator's mapped workspace. */
  lemma ReupgradeIff(db: Tables)
    requires forall id :: id in db.tasks ==> FinalColumns(db, db.tasks[id])
    ensures ContractFacts(Rebuilt(db))
       <==> MapComplete(db) && forall id :: id in db.tasks ==> ReadyAgain(db, db.tasks[id])
  {
    var back := Rebuilt(db);
    assert MappedWithOwner(back) == MappedWithOwner(db);
    forall id | id in db.tasks ensures TaskFinalizable(back, back.tasks[id]) <==> ReadyAgain(db, db.tasks[id]) {
      RowReadyAgain(db, db.tasks[id]);
      assert back.tasks[id] == WithLegacy(db.tasks[id]);
      assert TaskFinalizable(back, back.tasks[id]) <==> TaskFinalizable(db, WithLegacy(db.tasks[id]));
    }
  }

  function WithStatuses(db: Tables, statuses: map<TaskId, Status>): Tables {
    db.(tasks := map id | id in db.tasks ::
          if id in statuses then db.tasks[id].(status := Some(statuses[id])) else db.tasks[id])
  }

  /** After an upgrade and arbitrary status edits, downgrade and re-upgrade pass exactly if no task is IN_PROGRESS. */
  lemma StatusEditsReupgradeIff(db: Tables, statuses: map<TaskId, Status>)
    requires LegacyColumns(db) && ContractFacts(db)
    ensures var edited := WithStatuses(Finalized(db), statuses);
            ContractFacts(Rebuilt(edited))
            <==> forall id :: id in edited.tasks ==> edited.tasks[id].status != Some(InProgress)
  {
    var edited := WithStatuses(Finalized(db), statuses);
    assert MappedWithOwner(edited) == MappedWithOwner(db);
    forall id | id in edited.tasks
      ensures FinalColumns(edited, edited.tasks[id])
      ensures ReadyAgain(edited, edited.tasks[id]) <==> edited.tasks[id].status != Some(InProgress)
    {
      assert TaskFinalizable(db, db.tasks[id]);
    }
    ReupgradeIff(edited);
  }

  predicate TextFits(row: TaskRow) {
    TrimmedFits(row.title) && ValidPriority(row.priority)
  }

  ghost predicate AllTextFits(db: Tables) {
    forall id :: id in db.tasks ==> TextFits(db.tasks[id])
  }

  lemma BackfilledRowFinalizable(db: Tables, row: TaskRow)
    requires RowBackfilled(row) && UsesOwnersWorkspace(db, row) && RowReferences(db, row)
    ensures TaskFinalizable(db, row) <==> TextFits(row)
  {
  }

  /** Straight after a backfill the contract accepts exactly if all old titles and priorities meet the new checks. */
  lemma ContractAfterBackfillIff(db: Tables)
    requires TasksEnforced(db) && BackfillFacts(db)
    ensures ContractFacts(db) <==> AllTextFits(db)
  {
    BackfilledMapComplete(db);
    forall id | id in db.tasks
      ensures TaskFinalizable(db, db.tasks[id]) <==> TextFits(db.tasks[id])
    {
      BackfilledRowFinalizable(db, db.tasks[id]);
    }
  }

  lemma BackfilledMapComplete(db: Tables)
    requires db.wmap.Keys == db.users.Keys && WorkspacesPersonal(db)
    ensures MapComplete(db)
  {
    forall u | u in db.wmap ensures u in MappedWithOwner(db) { assert PersonalWorkspace(db, u); }
  }
}
