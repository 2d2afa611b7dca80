/** All three data revisions end to end: from a database before the backfill to a cleanup after any API traffic, and the
    full way back. */
module Migrations {
  import opened Wrappers
  import opened Schema
  import opened Protocol
  import opened MigrationTables
  import opened Backfill
  import opened BackfillDowngrade
  import opened Contract
  import opened Cleanup

  /** The rows added by the backfill keep every constraint. */
  lemma BackfilledIsEnforced(before: Tables, db: Tables, now: Time)
    requires WrittenBy(before, db, now)
    ensures Enforced(db)
  {
    BackfilledRowsRefer(before, db, now);
    BackfilledTasksRefer(before, db, now);
    BackfilledMapRefers(db);
  }

  lemma BackfilledMapRefers(db: Tables)
    requires BackfillFacts(db)
    ensures MapEnforced(db)
  {
    forall u | u in db.wmap ensures u in db.users && db.wmap[u].workspaceId in db.workspaces {
      assert PersonalWorkspace(db, u);
    }
    forall u, v | u in db.wmap && v in db.wmap && db.wmap[u].workspaceId == db.wmap[v].workspaceId ensures u == v {
      FactsMakeBijection(db, u, v);
    }
  }

  lemma BackfilledRowsRefer(before: Tables, db: Tables, now: Time)
    requires UsersEnforced(before) && WorkspacesEnforced(before) && MembersEnforced(before)
    requires Backfilled(before, db, now)
    ensures UsersEnforced(db) && WorkspacesEnforced(db) && MembersEnforced(db)
  {
    forall w | w in db.workspaces ensures w < db.nextWorkspaceId && db.workspaces[w].createdById in db.users {
      if w !in before.workspaces { assert UserBackfilled(before, db, db.workspaces[w].createdById, now); }
    }
    forall k | k in db.members ensures k.workspaceId in db.workspaces && k.userId in db.users {
      if k !in before.members { assert UserBackfilled(before, db, k.userId, now); }
    }
  }

  lemma BackfilledTasksRefer(before: Tables, db: Tables, now: Time)
    requires TasksEnforced(before) && TasksMoved(before, db, now) && db.users == before.users
    requires TasksBackfilled(db) && WorkspacesPersonal(db)
    ensures TasksEnforced(db)
  {
    forall id | id in db.tasks ensures RowReferences(db, db.tasks[id]) {
      assert RowMoved(before, db, id, now) && RowReferences(before, before.tasks[id]);
      assert PersonalWorkspace(db, db.tasks[id].ownerId.value);
    }
  }

  /** The contract accepts a backfilled database whose old titles and priorities meet the new checks. */
  lemma ContractAccepts(before: Tables, db: Tables, now: Time)
    requires WrittenBy(before, db, now)
    ensures ContractFacts(db) <==> AllTextFits(before)
  {
    assert TasksEnforced(db) by { BackfilledIsEnforced(before, db, now); }
    assert ContractFacts(db) <==> AllTextFits(db) by { ContractAfterBackfillIff(db); }
    assert AllTextFits(db) <==> AllTextFits(before) by { SameText(before, db, now); }
  }

  lemma SameText(before: Tables, db: Tables, now: Time)
    requires TasksMoved(before, db, now)
    ensures AllTextFits(db) <==> AllTextFits(before)
  {
    forall id | id in before.tasks ensures id in db.tasks && (TextFits(db.tasks[id]) <==> TextFits(before.tasks[id])) {
      assert RowMoved(before, db, id, now);
    }
  }

  /** Forward: any database with valid titles and priorities and an empty map can be backfilled, contracted, used by any
      number of requests in any interleaving, and then cleaned up. */
  lemma ForwardChain(before: Tables, db: Tables, now: Time, states: seq<State>, events: seq<Event>, k: nat,
                     nextUserId: nat, nextTaskId: nat)
    requires WrittenBy(before, db, now) && AllTextFits(before)
    requires forall u :: u in before.users ==> u < nextUserId
    requires forall id :: id in before.tasks ==> id < nextTaskId
    requires IsRun(states, events) && NothingStarted(states[0]) && k < |states|
    requires states[0].store == AsStore(Finalized(db), nextUserId, nextTaskId)
    ensures ContractFacts(db) && AsTables(states[0].store, db.wmap) == Finalized(db)
    ensures MappingFacts(AsTables(states[k].store, db.wmap)) && TaskFacts(AsTables(states[k].store, db.wmap))
  {
    ContractAccepts(before, db, now);
    FinalizedRowsAreFinal(db);
    SameRows(Finalized(db), nextUserId, nextTaskId);
    StartIsConsistent(before, db, now, nextUserId, nextTaskId);
    CleanupAcceptsReachable(db, states, events, k, nextUserId, nextTaskId);
  }

  lemma StartIsConsistent(before: Tables, db: Tables, now: Time, nextUserId: nat, nextTaskId: nat)
    requires WrittenBy(before, db, now) && ContractFacts(db)
    requires forall u :: u in before.users ==> u < nextUserId
    requires forall id :: id in before.tasks ==> id < nextTaskId
    ensures Consistent(AsStore(Finalized(db), nextUserId, nextTaskId))
  {
    BackfilledIsEnforced(before, db, now);
    FinalizedRowsAreFinal(db);
    FinalizedStaysEnforced(db);
    MigratedIsConsistent(Finalized(db), nextUserId, nextTaskId);
  }

  /** Back: the contract's downgrade accepts and rebuilds the backfilled database, and the backfill's downgrade accepts
      that and restores the database before the migrations, but for the id counter. */
  lemma FullWayBack(before: Tables, db: Tables, now: Time)
    requires WrittenBy(before, db, now)
    requires AllTextFits(before) && forall id :: id in before.tasks ==> NewColumnsNull(before.tasks[id])
    ensures ContractFacts(db)
    ensures forall id :: id in Finalized(db).tasks ==> Convertible(Finalized(db).tasks[id])
    ensures DowngradeAllowed(Rebuilt(Finalized(db)))
    ensures Restored(Rebuilt(Finalized(db))) == before.(nextWorkspaceId := db.nextWorkspaceId)
  {
    ContractAccepts(before, db, now);
    BackfilledTasks(before, db, now);
    ContractRoundTrip(db);
    UpgradeThenDowngrade(before, db, now);
  }
}
