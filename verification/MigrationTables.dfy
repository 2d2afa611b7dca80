/** The tables the data migrations work on, with nullable columns, SQL's three-valued conditions, and a connection
    whose statements state the constraints the database enforces on them. */
module MigrationTables {
  import opened Wrappers
  import opened Policies
  import opened Schema

  /** One `tasks` row across all revisions. NULL is None; a dropped column reads as None everywhere. */
  datatype TaskRow = TaskRow(
    title: string, description: Option<string>, priority: int,
    completed: Option<bool>, ownerId: Option<UserId>,
    workspaceId: Option<WorkspaceId>, creatorId: Option<UserId>, assigneeId: Option<UserId>,
    status: Option<Status>, createdAt: Option<Time>, updatedAt: Option<Time>)

  /** One row of the migration-only mapping table, keyed by user. */
  datatype MapRow = MapRow(
    workspaceId: WorkspaceId, legacyTaskCount: nat, legacyTaskMaxId: Option<TaskId>, migratedAt: Time)

  datatype Tables = Tables(
    users: map<UserId, string>,
    workspaces: map<WorkspaceId, Workspace>,
    members: map<MemberKey, Membership>,
    tasks: map<TaskId, TaskRow>,
    wmap: map<UserId, MapRow>,
    nextWorkspaceId: nat)

  // ---------------------------------------------------------------- three-valued conditions
  // WHERE keeps a row exactly when its condition is Yes.

  datatype Truth = Yes | No | Unknown

  function Known(b: bool): Truth {
    if b then Yes else No
  }

  /** `a != b` on nullable columns. */
  function Differs<T(==)>(a: Option<T>, b: Option<T>): Truth {
    if a.None? || b.None? then Unknown else Known(a != b)
  }

  function And(a: Truth, b: Truth): Truth {
    if a == No || b == No then No else if a == Unknown || b == Unknown then Unknown else Yes
  }

  function Or(a: Truth, b: Truth): Truth {
    if a == Yes || b == Yes then Yes else if a == Unknown || b == Unknown then Unknown else No
  }

  // ---------------------------------------------------------------- constraints

  /** The foreign keys, the unique key of the mapping, the auto-increment counter and the username width. */
  ghost predicate Enforced(db: Tables) {
    UsersEnforced(db) && WorkspacesEnforced(db) && MembersEnforced(db) && TasksEnforced(db) && MapEnforced(db)
  }

  ghost predicate UsersEnforced(db: Tables) {
    forall u :: u in db.users ==> |db.users[u]| <= 50
  }

  ghost predicate WorkspacesEnforced(db: Tables) {
    forall w :: w in db.workspaces ==> w < db.nextWorkspaceId && db.workspaces[w].createdById in db.users
  }

  ghost predicate MembersEnforced(db: Tables) {
    forall k :: k in db.members ==> k.workspaceId in db.workspaces && k.userId in db.users
  }

  ghost predicate TasksEnforced(db: Tables) {
    forall id :: id in db.tasks ==> RowReferences(db, db.tasks[id])
  }

  ghost predicate MapEnforced(db: Tables) {
    && (forall u :: u in db.wmap ==> u in db.users && db.wmap[u].workspaceId in db.workspaces)
    && (forall u, v :: u in db.wmap && v in db.wmap && db.wmap[u].workspaceId == db.wmap[v].workspaceId ==> u == v)
  }

  ghost predicate RowReferences(db: Tables, row: TaskRow) {
    && (row.ownerId.Some? ==> row.ownerId.value in db.users)
    && (row.workspaceId.Some? ==> row.workspaceId.value in db.workspaces)
    && (row.creatorId.Some? ==> row.creatorId.value in db.users)
    && (row.assigneeId.Some? ==> row.assigneeId.value in db.users)
  }

  /** Before the contract revision `owner_id` and `completed` are NOT NULL. */
  ghost predicate LegacyColumns(db: Tables) {
    forall id :: id in db.tasks ==> db.tasks[id].ownerId.Some? && db.tasks[id].completed.Some?
  }

  // ---------------------------------------------------------------- selections

  function Owned(db: Tables, user: UserId): set<TaskId> {
    set id | id in db.tasks && db.tasks[id].ownerId == Some(user)
  }

  function TasksIn(db: Tables, ws: WorkspaceId): set<TaskId> {
    set id | id in db.tasks && db.tasks[id].workspaceId == Some(ws)
  }

  function MaxId(ids: set<TaskId>): Option<TaskId> {
    if ids == {} then None else Some(Max(ids))
  }

  /** Nothing refers to this workspace, so a RESTRICT foreign key lets it go. */
  ghost predicate Unreferenced(db: Tables, ws: WorkspaceId) {
    && TasksIn(db, ws) == {}
    && (forall k :: k in db.members ==> k.workspaceId != ws)
    && (forall u :: u in db.wmap ==> db.wmap[u].workspaceId != ws)
  }

  /** `ORDER BY id` over a key set. */
  function InIdOrder(s: set<nat>): (ids: seq<nat>)
    ensures forall x :: x in ids <==> x in s
  {
    if s == {} then [] else [Min(s)] + InIdOrder(s - {Min(s)})
  }

  lemma {:induction false} IdOrderAscends(s: set<nat>)
    ensures |InIdOrder(s)| == |s|
    ensures forall i, j :: 0 <= i < j < |InIdOrder(s)| ==> InIdOrder(s)[i] < InIdOrder(s)[j]
  {
    if s != {} {
      var rest := InIdOrder(s - {Min(s)});
      IdOrderAscends(s - {Min(s)});
      forall j | 0 <= j < |rest| ensures Min(s) < rest[j] { assert rest[j] in s - {Min(s)}; }
    }
  }

  // ---------------------------------------------------------------- statements

  /** MySQL's TRIM removes spaces only. */
  function TrimLeft(s: string): string {
    if s != "" && s[0] == ' ' then TrimLeft(s[1..]) else s
  }

  function TrimRight(s: string): string {
    if s != "" && s[|s| - 1] == ' ' then TrimRight(s[..|s| - 1]) else s
  }

  predicate TrimmedFits(s: string) {
    1 <= |TrimRight(TrimLeft(s))| <= 100
  }

  class Connection {
    var db: Tables

    method InsertWorkspace(row: Workspace) returns (id: WorkspaceId)
      requires row.createdById in db.users && TrimmedFits(row.name) && |row.name| <= 100
      requires db.nextWorkspaceId !in db.workspaces
      modifies this
      ensures id == old(db).nextWorkspaceId
      ensures db == old(db).(workspaces := old(db).workspaces[id := row], nextWorkspaceId := id + 1)
    {
      id := db.nextWorkspaceId;
      db := db.(workspaces := db.workspaces[id := row], nextWorkspaceId := id + 1);
    }

    method InsertMember(key: MemberKey, row: Membership)
      requires key !in db.members && key.workspaceId in db.workspaces && key.userId in db.users
      modifies this
      ensures db == old(db).(members := old(db).members[key := row])
    {
      db := db.(members := db.members[key := row]);
    }

    method InsertMapping(user: UserId, row: MapRow)
      requires user !in db.wmap && user in db.users && row.workspaceId in db.workspaces
      requires forall u :: u in db.wmap ==> db.wmap[u].workspaceId != row.workspaceId
      modifies this
      ensures db == old(db).(wmap := old(db).wmap[user := row])
    {
      db := db.(wmap := db.wmap[user := row]);
    }

    method DeleteMember(key: MemberKey)
      modifies this
      ensures db == old(db).(members := old(db).members - {key})
    {
      db := db.(members := db.members - {key});
    }

    /** The RESTRICT foreign keys refuse to delete a workspace that is still referenced. */
    method DeleteWorkspace(id: WorkspaceId)
      requires Unreferenced(db, id)
      modifies this
      ensures db == old(db).(workspaces := old(db).workspaces - {id})
    {
      db := db.(workspaces := db.workspaces - {id});
    }
  }

  // ---------------------------------------------------------------- counting

  /** A filtered count equals the count of all rows exactly when every row passes. */
  lemma AllPass<K>(keys: set<K>, passing: set<K>)
    requires passing <= keys
    ensures |passing| == |keys| <==> forall k :: k in keys ==> k in passing
  {
    SubsetOfSameSize(passing, keys);
  }

  /** Joining every key with exactly one partner row keeps the number of rows. */
  lemma {:induction false} ImageSize<K, R>(keys: set<K>, f: K -> R, image: set<R>)
    requires forall a, b :: a in keys && b in keys && f(a) == f(b) ==> a == b
    requires forall k :: k in keys ==> f(k) in image
    requires forall r :: r in image ==> exists k :: k in keys && f(k) == r
    ensures |image| == |keys|
  {
    if keys == {} {
      assert image == {};
    } else {
      var k :| k in keys;
      forall r | r in image - {f(k)} ensures exists j :: j in keys - {k} && f(j) == r {
        var j :| j in keys && f(j) == r;
        assert j in keys - {k};
      }
      ImageSize(keys - {k}, f, image - {f(k)});
    }
  }
}
