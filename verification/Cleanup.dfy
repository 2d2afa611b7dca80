/** Revision e5a1c7d9b302: drop the mapping table after the final data checks, and why every state the API can reach
    passes them. */
module Cleanup {
  import opened Wrappers
  import opened Policies
  import opened Schema
  import opened Transactions
  import opened MigrationTables
  import opened MigrationPromises
  import opened Backfill
  import opened Contract
  import opened Protocol
  import opened ProtocolInvariant
  import opened ProtocolSafety
  import opened ProtocolHistory
  import opened UnfinishedWork

  // ---------------------------------------------------------------- the validation

  ghost predicate MappingFacts(db: Tables) {
    && (forall u, v :: u in db.wmap && v in db.wmap && db.wmap[u].workspaceId == db.wmap[v].workspaceId ==> u == v)
    && (forall u :: u in db.wmap ==> MappingValid(db, u))
  }

  predicate MappingValid(db: Tables, u: UserId)
    requires u in db.wmap
  {
    var ws := db.wmap[u].workspaceId;
    && u in db.users && ws in db.workspaces && db.workspaces[ws].createdById == u
    && MemberKey(ws, u) in db.members && db.members[MemberKey(ws, u)].role == Owner
  }

  ghost predicate TaskFacts(db: Tables) {
    forall id :: id in db.tasks ==> TaskValid(db, db.tasks[id])
  }

  predicate TaskValid(db: Tables, row: TaskRow) {
    && row.status.Some? && row.createdAt.Some? && row.updatedAt.Some?
    && References(db, row)
    && (row.assigneeId.Some? ==> row.assigneeId.value in db.users)
  }

  function UsersMappedTo(db: Tables, ws: WorkspaceId): set<UserId> {
    set u | u in db.wmap && db.wmap[u].workspaceId == ws
  }

  /** GROUP BY workspace_id HAVING COUNT(*) > 1. */
  function DuplicateWorkspaces(db: Tables): set<WorkspaceId> {
    set u | u in db.wmap && |UsersMappedTo(db, db.wmap[u].workspaceId)| > 1 :: db.wmap[u].workspaceId
  }

  lemma NoDuplicatesIff(db: Tables)
    ensures DuplicateWorkspaces(db) == {}
       <==> forall u, v :: u in db.wmap && v in db.wmap && db.wmap[u].workspaceId == db.wmap[v].workspaceId ==> u == v
  {
    forall u, v | u in db.wmap && v in db.wmap && db.wmap[u].workspaceId == db.wmap[v].workspaceId && u != v
      ensures DuplicateWorkspaces(db) != {}
    {
      var ws := db.wmap[u].workspaceId;
      SubsetOfSameSize({u, v}, UsersMappedTo(db, ws));
      assert ws in DuplicateWorkspaces(db);
    }
    if ws :| ws in DuplicateWorkspaces(db) {
      var u :| u in db.wmap && db.wmap[u].workspaceId == ws && |UsersMappedTo(db, ws)| > 1;
      SubsetOfSameSize({u}, UsersMappedTo(db, ws));
      var v :| v in UsersMappedTo(db, ws) && v != u;
    }
  }

  method ValidateMappingData(c: Connection) returns (ok: bool)
    ensures ok <==> MappingFacts(c.db)
    ensures ok <==> MappingChecks(c.db)
  {
    NoDuplicatesIff(c.db);
    if |DuplicateWorkspaces(c.db)| != 0 {
      return false;
    }
    var orphans := set u | u in c.db.wmap && (u !in c.db.users || c.db.wmap[u].workspaceId !in c.db.workspaces);
    if |orphans| != 0 {
      assert exists u :: u in orphans;
      return false;
    }
    assert orphans == {};
    forall u | u in c.db.wmap
      ensures u in c.db.users && c.db.wmap[u].workspaceId in c.db.workspaces
    {
      assert u !in orphans;
    }
    var wrongCreator := set u | u in c.db.wmap && c.db.wmap[u].workspaceId in c.db.workspaces
                                 && c.db.workspaces[c.db.wmap[u].workspaceId].createdById != u;
    if |wrongCreator| != 0 {
      assert exists u :: u in wrongCreator;
      return false;
    }
    assert wrongCreator == {};
    var missingOwner := set u | u in c.db.wmap && u !in MappedWithOwner(c.db);
    if |missingOwner| != 0 {
      assert exists u :: u in missingOwner;
      return false;
    }
    assert missingOwner == {};
    forall u | u in c.db.wmap ensures MappingValid(c.db, u) { assert u !in wrongCreator && u !in missingOwner; }
    return true;
  }

  method ValidateTaskData(c: Connection) returns (ok: bool)
    ensures ok <==> TaskFacts(c.db)
    ensures ok <==> TaskChecks(c.db)
  {
    var nulls := set id | id in c.db.tasks &&
      (c.db.tasks[id].workspaceId.None? || c.db.tasks[id].creatorId.None? || c.db.tasks[id].status.None?
       || c.db.tasks[id].createdAt.None? || c.db.tasks[id].updatedAt.None?);
    if |nulls| != 0 {
      assert exists id :: id in nulls;
      return false;
    }
    assert nulls == {};
    var orphans := set id | id in c.db.tasks &&
      (!References(c.db, c.db.tasks[id])
       || (c.db.tasks[id].assigneeId.Some? && c.db.tasks[id].assigneeId.value !in c.db.users));
    if |orphans| != 0 {
      assert exists id :: id in orphans;
      return false;
    }
    assert orphans == {};
    forall id | id in c.db.tasks ensures TaskValid(c.db, c.db.tasks[id]) { assert id !in nulls && id !in orphans; }
    return true;
  }

  /** `upgrade`: with the schema shape as a parameter, the data checks decide, and only the map is dropped. */
  method Upgrade(c: Connection, structureOk: bool) returns (ok: bool)
    modifies c
    ensures ok <==> structureOk && MappingFacts(old(c.db)) && TaskFacts(old(c.db))
    ensures c.db == if ok then old(c.db).(wmap := map[]) else old(c.db)
    ensures ok <==> structureOk && MappingChecks(old(c.db)) && TaskChecks(old(c.db))
    ensures ok ==> MapDropped(old(c.db), c.db)
  {
    if !structureOk {
      return false;
    }
    ok := ValidateMappingData(c);
    if !ok {
      return;
    }
    ok := ValidateTaskData(c);
    if !ok {
      return;
    }
    c.db := c.db.(wmap := map[]);
  }

  // ---------------------------------------------------------------- the application's view of the same rows

  function AsRow(task: Task): TaskRow {
    TaskRow(task.title, task.description, task.priority, None, None, Some(task.workspaceId), Some(task.creatorId),
            task.assigneeId, Some(task.status), Some(task.createdAt), Some(task.updatedAt))
  }

  predicate IsFinalRow(row: TaskRow) {
    && row.completed.None? && row.ownerId.None?
    && row.workspaceId.Some? && row.creatorId.Some? && row.status.Some? && row.createdAt.Some? && row.updatedAt.Some?
  }

  function AsTask(row: TaskRow): (task: Task)
    ensures IsFinalRow(row) ==> AsRow(task) == row
    ensures task.title == row.title && task.description == row.description && task.priority == row.priority
    ensures row.workspaceId in {None, Some(task.workspaceId)} && row.creatorId in {None, Some(task.creatorId)}
    ensures task.assigneeId == row.assigneeId && row.status in {None, Some(task.status)}
    ensures row.createdAt in {None, Some(task.createdAt)} && row.updatedAt in {None, Some(task.updatedAt)}
  {
    Task(row.title, row.description, row.priority, OrElse(row.workspaceId, 0), OrElse(row.creatorId, 0), row.assigneeId,
         OrElse(row.status, Todo), OrElse(row.createdAt, 0), OrElse(row.updatedAt, 0))
  }

  /** The store the application starts from, with the counters of the two other id columns. */
  function AsStore(db: Tables, nextUserId: nat, nextTaskId: nat): Store {
    Store(db.users, db.workspaces, db.members, map id | id in db.tasks :: AsTask(db.tasks[id]),
          nextUserId, db.nextWorkspaceId, nextTaskId)
  }

  function AsTables(st: Store, wmap: map<UserId, MapRow>): Tables {
    Tables(st.users, st.workspaces, st.members, map id | id in st.tasks :: AsRow(st.tasks[id]),
           wmap, st.nextWorkspaceId)
  }

  lemma SameRows(db: Tables, nextUserId: nat, nextTaskId: nat)
    requires forall id :: id in db.tasks ==> IsFinalRow(db.tasks[id])
    ensures AsTables(AsStore(db, nextUserId, nextTaskId), db.wmap) == db
  {
    assert AsTables(AsStore(db, nextUserId, nextTaskId), db.wmap).tasks == db.tasks;
  }

  lemma FinalizedRowsAreFinal(db: Tables)
    requires ContractFacts(db)
    ensures forall id :: id in Finalized(db).tasks ==> IsFinalRow(Finalized(db).tasks[id])
  {
    forall id | id in db.tasks ensures IsFinalRow(Finalized(db).tasks[id]) { assert RowFinal(db.tasks[id]); }
  }

  /** A migrated database is a consistent starting point for the application. */
  lemma MigratedIsConsistent(db: Tables, nextUserId: nat, nextTaskId: nat)
    requires WorkspacesEnforced(db) && MembersEnforced(db) && TasksEnforced(db)
    requires forall id :: id in db.tasks ==> IsFinalRow(db.tasks[id])
    requires forall u :: u in db.users ==> u < nextUserId
    requires forall id :: id in db.tasks ==> id < nextTaskId
    ensures Consistent(AsStore(db, nextUserId, nextTaskId))
  {
    var st := AsStore(db, nextUserId, nextTaskId);
    forall id | id in st.tasks ensures TaskConsistent(st, id) {
      assert RowReferences(db, db.tasks[id]);
    }
  }

  lemma FinalizedStaysEnforced(db: Tables)
    requires Enforced(db)
    ensures Enforced(Finalized(db))
  {
    var final := Finalized(db);
    forall id | id in final.tasks
      ensures RowReferences(final, final.tasks[id])
    {
      assert RowReferences(db, db.tasks[id]);
    }
  }

  // ---------------------------------------------------------------- acceptance

  lemma {:induction false} UsersOnlyGrow(states: seq<State>, events: seq<Event>, k: nat, u: UserId)
    requires IsRun(states, events) && Inv(states[0]) && k < |states| && u in states[0].store.users
    ensures u in states[k].store.users
    decreases k
  {
    if k > 0 {
      UsersOnlyGrow(states, events, k - 1, u);
      RunKeepsInv(states, events, k - 1);
      FireKeepsUsers(states[k - 1], events[k - 1], u);
    }
  }

  lemma FireKeepsUsers(s: State, e: Event, u: UserId)
    requires Inv(s) && Enabled(s, e) && u in s.store.users
    ensures u in Fire(s, e).store.users
  {
    match CommitOf(s, e)
    case None => OnlyCommitsWrite(s, e);
    case Some(w) =>
      CommitEffect(s, e, w);
      CommitFootprint(s.store, s.revived, s.txns[e.i], w, e.now);
  }

  /** What an accepted backfill says about a mapped user is still true in every state the API reaches. */
  lemma MappingStaysValid(db: Tables, states: seq<State>, events: seq<Event>, k: nat, u: UserId)
    requires u in db.wmap && u in db.users && PersonalWorkspace(db, u)
    requires IsRun(states, events) && Inv(states[0]) && k < |states|
    requires SameApplicationRows(db, states[0].store)
    ensures MappingValid(AsTables(states[k].store, db.wmap), u)
  {
    var ws := db.wmap[u].workspaceId;
    assert OwnsWorkspace(states[0].store, ws, u);
    OwnersNeverChange(states, events, k, ws);
    UsersOnlyGrow(states, events, k, u);
    OwnerMapsValid(states[k].store, db.wmap, u);
  }

  predicate SameApplicationRows(db: Tables, st: Store) {
    st.users == db.users && st.workspaces == db.workspaces && st.members == db.members
  }

  lemma OwnerMapsValid(st: Store, wmap: map<UserId, MapRow>, u: UserId)
    requires u in wmap && u in st.users && OwnsWorkspace(st, wmap[u].workspaceId, u)
    requires wmap[u].workspaceId in st.workspaces && st.workspaces[wmap[u].workspaceId].createdById == u
    ensures MappingValid(AsTables(st, wmap), u)
  {
  }

  lemma ConsistentTasksValid(st: Store, wmap: map<UserId, MapRow>)
    requires Consistent(st)
    ensures TaskFacts(AsTables(st, wmap))
  {
    forall id | id in st.tasks
      ensures TaskValid(AsTables(st, wmap), AsRow(st.tasks[id]))
    {
      assert TaskConsistent(st, id);
    }
  }

  lemma MapsStayDistinct(db: Tables, after: Tables)
    requires BackfillFacts(db) && after.wmap == db.wmap
    requires forall u :: u in db.wmap ==> MappingValid(after, u)
    ensures MappingFacts(after)
  {
    forall u, v | u in db.wmap && v in db.wmap && db.wmap[u].workspaceId == db.wmap[v].workspaceId ensures u == v {
      FactsMakeBijection(db, u, v);
    }
  }

  /** Cleanup acceptance: after an accepted backfill and contract, and any run of any number of API requests, the
      cleanup's data checks succeed. */
  lemma CleanupAcceptsReachable(db: Tables, states: seq<State>, events: seq<Event>, k: nat, nextUserId: nat,
                                nextTaskId: nat)
    requires BackfillFacts(db) && ContractFacts(db)
    requires IsRun(states, events) && Initial(states[0]) && k < |states|
    requires states[0].store == AsStore(Finalized(db), nextUserId, nextTaskId)
    ensures MappingFacts(AsTables(states[k].store, db.wmap)) && TaskFacts(AsTables(states[k].store, db.wmap))
  {
    var reached := AsTables(states[k].store, db.wmap);
    assert Inv(states[0]) by { InitialKeepsInv(states[0]); }
    assert TaskFacts(reached) by {
      RunKeepsInv(states, events, k);
      ConsistentTasksValid(states[k].store, db.wmap);
    }
    forall u | u in db.wmap ensures MappingValid(reached, u) {
      assert PersonalWorkspace(db, u);
      MappingStaysValid(db, states, events, k, u);
    }
    MapsStayDistinct(db, reached);
  }

  /** From a migrated database on, every personal workspace has its user as the one OWNER, in every state of every
      run. */
  lemma PersonalWorkspaceStaysOwned(db: Tables, states: seq<State>, events: seq<Event>, k: nat, u: UserId)
    requires BackfillFacts(db) && u in db.users
    requires IsRun(states, events) && Initial(states[0]) && k < |states|
    requires SameApplicationRows(db, states[0].store)
    ensures u in db.wmap && SoleOwner(states[k].store, db.wmap[u].workspaceId)
    ensures states[k].store.workspaces[db.wmap[u].workspaceId].createdById == u
  {
    var ws := db.wmap[u].workspaceId;
    assert PersonalWorkspace(db, u);
    InitialKeepsInv(states[0]);
    OwnersNeverChange(states, events, k, ws);
    forall v ensures OwnsWorkspace(states[0].store, ws, v) <==> v == u { }
  }

  /** A backfilled database assigns nothing, so the main result on assignments holds for every run from there. */
  lemma MigratedOrphanOnlyByReopening(
    db: Tables, states: seq<State>, events: seq<Event>, k: nat, id: TaskId, nextUserId: nat, nextTaskId: nat)
    returns (j: nat)
    requires BackfillFacts(db) && IsRun(states, events) && Initial(states[0]) && k < |states|
    requires states[0].store == AsStore(Finalized(db), nextUserId, nextTaskId)
    requires Orphan(states[k].store, id)
    ensures j < k && ReopensForLeaver(states[j], events[j], id) && HeldSince(states, j, k, id)
    ensures var task := states[k].store.tasks[id];
            NoRemovalStarts(states, events, j, k, task.workspaceId, task.assigneeId.value)
  {
    forall t ensures !Orphan(states[0].store, t) {
      if t in db.tasks { assert RowBackfilled(db.tasks[t]); }
    }
    j := OrphanOnlyByReopening(states, events, k, id);
  }
}
