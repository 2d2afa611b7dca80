/** The committed rows of the final schema (app/models.py): users, workspaces, memberships and tasks. */
module Schema {
  import opened Wrappers
  import opened Policies

  type WorkspaceId = nat
  type TaskId = nat

  datatype MemberKey = MemberKey(workspaceId: WorkspaceId, userId: UserId)

  datatype Workspace = Workspace(name: string, createdById: UserId, createdAt: Time, updatedAt: Time)

  datatype Membership = Membership(role: Role, joinedAt: Time, updatedAt: Time)

  datatype Task = Task(
    title: string, description: Option<string>, priority: int,
    workspaceId: WorkspaceId, creatorId: UserId, assigneeId: Option<UserId>,
    status: Status, createdAt: Time, updatedAt: Time)

  /** The rows every transaction sees as committed, with the auto-increment counters of the three id columns. */
  datatype Store = Store(
    users: map<UserId, string>,
    workspaces: map<WorkspaceId, Workspace>,
    members: map<MemberKey, Membership>,
    tasks: map<TaskId, Task>,
    nextUserId: nat, nextWorkspaceId: nat, nextTaskId: nat)

  /** What the foreign keys and the auto-increment counters guarantee of every committed state. */
  ghost predicate Consistent(st: Store) {
    && (forall u :: u in st.users ==> u < st.nextUserId)
    && (forall w :: w in st.workspaces ==> w < st.nextWorkspaceId && st.workspaces[w].createdById in st.users)
    && (forall k :: k in st.members ==> k.workspaceId in st.workspaces && k.userId in st.users)
    && (forall id :: id in st.tasks ==> TaskConsistent(st, id))
  }

  ghost predicate TaskConsistent(st: Store, id: TaskId)
    requires id in st.tasks
  {
    && id < st.nextTaskId
    && st.tasks[id].workspaceId in st.workspaces
    && st.tasks[id].creatorId in st.users
    && (st.tasks[id].assigneeId.Some? ==> st.tasks[id].assigneeId.value in st.users)
  }

  predicate IsMember(st: Store, ws: WorkspaceId, user: UserId) {
    MemberKey(ws, user) in st.members
  }

  predicate HasTask(st: Store, ws: WorkspaceId, id: TaskId) {
    id in st.tasks && st.tasks[id].workspaceId == ws
  }

  /** The rows the bulk unassign of a member removal selects. */
  predicate HoldsWork(st: Store, ws: WorkspaceId, user: UserId, id: TaskId) {
    HasTask(st, ws, id) && st.tasks[id].assigneeId == Some(user) && st.tasks[id].status != Done
  }

  function OpenWork(st: Store, ws: WorkspaceId, user: UserId): set<TaskId> {
    set id | id in st.tasks && HoldsWork(st, ws, user, id)
  }
}
