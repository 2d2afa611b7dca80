/** Two whole databases whose downgrade is accepted although generated columns changed, neither with a NULL: a status
    that moved along with `completed`, and two tasks that changed places between users. */
module GuardExamples {
  import opened Wrappers
  import opened Policies
  import opened Schema
  import opened MigrationTables
  import opened Backfill
  import opened BackfillDowngrade
  import opened GuardGap

  function OpenTask(owner: UserId): TaskRow {
    TaskRow("t", None, 1, Some(false), Some(owner), None, None, None, None, None, None)
  }

  /** Two users with two open tasks each, before the backfill. */
  function Legacy(): Tables {
    Tables(map[1 := "ann", 2 := "bob"], map[], map[],
           map[1 := OpenTask(1), 2 := OpenTask(2), 5 := OpenTask(1), 6 := OpenTask(2)], map[], 1)
  }

  /** And after it. */
  function Written(): Tables {
    BackfillAll(Legacy(), [1, 2], 0)
  }

  lemma LegacyIsEnforced()
    ensures Enforced(Legacy()) && LegacyColumns(Legacy()) && Legacy().wmap == map[]
  {
  }

  lemma BackfillSucceeds()
    ensures WrittenBy(Legacy(), Written(), 0)
  {
    var users: seq<UserId> := [1, 2];
    LegacyIsEnforced();
    LoopWrites(Legacy(), users, 0);
  }

  predicate LegacyShape(before: Tables) {
    && before.users.Keys == {1, 2} && before.tasks.Keys == {1, 2, 5, 6}
    && before.tasks[1] == before.tasks[5] == OpenTask(1) && before.tasks[2] == before.tasks[6] == OpenTask(2)
  }

  lemma LegacyHasShape()
    ensures LegacyShape(Legacy())
  {
  }

  /** What the backfill made of the four tasks. */
  ghost predicate FourTasks(written: Tables) {
    && written.wmap.Keys == {1, 2} && written.tasks.Keys == {1, 2, 5, 6}
    && RowOf(written, 1, 1) && RowOf(written, 5, 1) && RowOf(written, 2, 2) && RowOf(written, 6, 2)
  }

  predicate RowOf(written: Tables, id: TaskId, owner: UserId) {
    && owner in written.wmap && id in written.tasks && written.wmap[owner].migratedAt == 0
    && written.tasks[id] == FilledRow(OpenTask(owner), written.wmap[owner].workspaceId, owner, 0)
  }

  lemma TaskWritten(before: Tables, written: Tables, id: TaskId, owner: UserId)
    requires WrittenBy(before, written, 0) && id in before.tasks && before.tasks[id] == OpenTask(owner)
    ensures RowOf(written, id, owner)
  {
    RowWritten(before, written, id, 0);
  }

  lemma SameKeys(before: Tables, written: Tables)
    requires WrittenBy(before, written, 0)
    ensures written.wmap.Keys == before.users.Keys && written.tasks.Keys == before.tasks.Keys
  {
  }

  lemma FourTasksWritten(before: Tables, written: Tables)
    requires LegacyShape(before) && WrittenBy(before, written, 0)
    ensures FourTasks(written)
  {
    SameKeys(before, written);
    TaskWritten(before, written, 1, 1);
    TaskWritten(before, written, 2, 2);
    TaskWritten(before, written, 5, 1);
    TaskWritten(before, written, 6, 2);
  }

  lemma WrittenFourTasks()
    ensures FourTasks(Written()) && Editable(Written(), 0)
  {
    BackfillSucceeds();
    LegacyHasShape();
    FourTasksWritten(Legacy(), Written());
    WrittenIsEditable(Legacy(), Written(), 0);
  }

  // ---------------------------------------------------------------- a status that moved along

  /** Task 5 is completed, its status moves along, and its title changes. */
  function Moved(written: Tables): Tables
    requires 5 in written.tasks
  {
    var row := written.tasks[5].(completed := Some(true), status := Some(Done), title := "other");
    written.(tasks := written.tasks[5 := row])
  }

  /** Task 5 has another status than written, no NULL and the same owner. */
  ghost predicate MovedAccepted(written: Tables) {
    && 5 in written.tasks && DowngradeAllowed(Moved(written))
    && !SameGenerated(Moved(written).tasks[5], written.tasks[5]) && !HasNull(Moved(written).tasks[5])
    && Moved(written).tasks[5].ownerId == written.tasks[5].ownerId
    && 5 in Restored(Moved(written)).tasks && Restored(Moved(written)).tasks[5].title == "other"
  }

  /** The downgrade is accepted with the changed status, and keeps the new `completed` and title. */
  lemma DowngradeAcceptsMovedStatus()
    ensures MovedAccepted(Written())
  {
    WrittenFourTasks();
    MovedIsAccepted(Written());
  }

  lemma MovedIsAccepted(written: Tables)
    requires FourTasks(written) && Editable(written, 0)
    ensures MovedAccepted(written)
  {
    assert DowngradeAllowed(Moved(written)) by {
      MovedRowsFit(written);
      MovedNumbers(written);
      FittingEditAllowed(written, Moved(written), 0);
    }
    MovedDiffers(written);
  }

  lemma MovedDiffers(written: Tables)
    requires FourTasks(written) && DowngradeAllowed(Moved(written))
    ensures MovedAccepted(written)
  {
    DowngradeKeepsLegacyColumns(Moved(written), 5);
  }

  lemma MovedRowsFit(written: Tables)
    requires FourTasks(written)
    ensures AllRowsFit(Moved(written), 0) && LegacyColumns(Moved(written))
  {
  }

  lemma MovedNumbers(written: Tables)
    requires 5 in written.tasks
    ensures AllNumbersKept(written, Moved(written))
  {
    forall u ensures Owned(Moved(written), u) == Owned(written, u) { }
  }

  // ---------------------------------------------------------------- two tasks that changed places

  /** Tasks 1 and 2 change places: owner, creator and workspace of the other user. */
  function Swapped(written: Tables): Tables
    requires 1 in written.tasks && 2 in written.tasks
  {
    var one, two := written.tasks[1], written.tasks[2];
    written.(tasks := written.tasks[
      1 := one.(ownerId := two.ownerId, creatorId := two.creatorId, workspaceId := two.workspaceId)][
      2 := two.(ownerId := one.ownerId, creatorId := one.creatorId, workspaceId := one.workspaceId)])
  }

  /** Both tasks have another owner, creator and workspace than written, no NULL, and `completed` and `status` as
      written; the downgrade leaves them with the other owner. */
  ghost predicate SwappedAccepted(written: Tables) {
    && 1 in written.tasks && 2 in written.tasks && DowngradeAllowed(Swapped(written))
    && SwappedRow(Swapped(written).tasks[1], written.tasks[1])
    && SwappedRow(Swapped(written).tasks[2], written.tasks[2])
    && 1 in Restored(Swapped(written)).tasks && Restored(Swapped(written)).tasks[1].ownerId == Some(2)
  }

  predicate SwappedRow(row: TaskRow, written: TaskRow) {
    && row.ownerId != written.ownerId && row.creatorId != written.creatorId && row.workspaceId != written.workspaceId
    && row.completed == written.completed && row.status == written.status && !HasNull(row)
  }

  lemma DowngradeAcceptsSwappedTasks()
    ensures SwappedAccepted(Written())
  {
    WrittenFourTasks();
    SwappedIsAccepted(Written());
  }

  lemma SwappedIsAccepted(written: Tables)
    requires FourTasks(written) && Editable(written, 0)
    ensures SwappedAccepted(written)
  {
    assert DowngradeAllowed(Swapped(written)) by {
      SwappedRowsFit(written);
      SwappedNumbers(written);
      FittingEditAllowed(written, Swapped(written), 0);
    }
    SwappedDiffers(written);
  }

  lemma SwappedDiffers(written: Tables)
    requires FourTasks(written) && OneToOne(written) && DowngradeAllowed(Swapped(written))
    ensures SwappedAccepted(written)
  {
    DowngradeKeepsLegacyColumns(Swapped(written), 1);
  }

  lemma SwappedRowsFit(written: Tables)
    requires FourTasks(written)
    ensures AllRowsFit(Swapped(written), 0) && LegacyColumns(Swapped(written))
  {
  }

  /** The guard's numbers for both users: two tasks each, the largest ids 5 and 6. */
  lemma SameNumbers(written: Tables, db: Tables, u: UserId, first: TaskId, other: TaskId, last: TaskId)
    requires Owned(written, u) == {first, last} && Owned(db, u) == {other, last} && first < last && other < last
    ensures NumbersKept(written, db, u)
  {
  }

  lemma SwappedNumbers(written: Tables)
    requires FourTasks(written)
    ensures AllNumbersKept(written, Swapped(written))
  {
    var db := Swapped(written);
    assert Owned(written, 1) == {1, 5} && Owned(db, 1) == {2, 5};
    assert Owned(written, 2) == {2, 6} && Owned(db, 2) == {1, 6};
    SameNumbers(written, db, 1, 1, 2, 5);
    SameNumbers(written, db, 2, 2, 1, 6);
  }
}
