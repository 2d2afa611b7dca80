/** What a caller of each write service is promised, spelled out in roles, statuses and the columns of every table, and
    the proof that the atomic specification keeps it. */
module Promises {
  import opened Wrappers
  import opened Policies
  import opened Schema
  import opened Transactions

  // ---------------------------------------------------------------- frames

  ghost predicate OthersKept<K(!new), V>(before: map<K, V>, after: map<K, V>, k: K) {
    forall x :: x != k ==> (x in before <==> x in after) && (x in before ==> after[x] == before[x])
  }

  predicate OnlyTasksDiffer(st: Store, st': Store) {
    && st'.users == st.users && st'.workspaces == st.workspaces && st'.members == st.members
    && st'.nextUserId == st.nextUserId && st'.nextWorkspaceId == st.nextWorkspaceId
  }

  predicate OnlyMembersDiffer(st: Store, st': Store) {
    && st'.users == st.users && st'.workspaces == st.workspaces && st'.tasks == st.tasks
    && st'.nextUserId == st.nextUserId && st'.nextWorkspaceId == st.nextWorkspaceId && st'.nextTaskId == st.nextTaskId
  }

  /** The task is still there, and nothing but its row may differ. */
  ghost predicate OnlyTask(st: Store, st': Store, id: TaskId) {
    && id in st.tasks && id in st'.tasks
    && OnlyTasksDiffer(st, st') && st'.nextTaskId == st.nextTaskId && OthersKept(st.tasks, st'.tasks, id)
  }

  predicate TextKept(a: Task, b: Task) {
    b.title == a.title && b.description == a.description && b.priority == a.priority
  }

  predicate OriginKept(a: Task, b: Task) {
    b.workspaceId == a.workspaceId && b.creatorId == a.creatorId && b.createdAt == a.createdAt
  }

  predicate Refused(error: Error, st: Store, r: Option<Error>, st': Store) {
    r == Some(error) && st' == st
  }

  // ---------------------------------------------------------------- tasks

  /** `update_task_status`. */
  ghost predicate StatusPromise(st: Store, ws: WorkspaceId, actor: UserId, id: TaskId, requested: Status, now: Time,
                                r: Option<Error>, st': Store) {
    var key := MemberKey(ws, actor);
    if key !in st.members then Refused(WorkspaceNotFound, st, r, st')
    else if id !in st.tasks || st.tasks[id].workspaceId != ws then Refused(TaskNotFound, st, r, st')
    else
      var a := st.tasks[id];
      var role := st.members[key].role;
      if role == Member && a.assigneeId != Some(actor) then Refused(TaskPermissionDenied, st, r, st')
      else if role == Member
              && (a.status, requested) in {(Todo, Done), (InProgress, Todo), (Done, Todo), (Done, InProgress)} then
        Refused(TransitionConflict, st, r, st')
      else
        && r == None && OnlyTask(st, st', id)
        && var b := st'.tasks[id];
           && b.status == requested && b.assigneeId == a.assigneeId && TextKept(a, b) && OriginKept(a, b)
           && b.updatedAt == if a.status == requested then a.updatedAt else now
  }

  /** `update_task_assignee`; `accessRole` is the role read before the locks. */
  ghost predicate AssigneePromise(st: Store, ws: WorkspaceId, actor: UserId, accessRole: Role, id: TaskId,
                                  requested: Option<UserId>, now: Time, r: Option<Error>, st': Store) {
    var key := MemberKey(ws, actor);
    if accessRole == Member && requested != None && requested != Some(actor) then
      Refused(TaskPermissionDenied, st, r, st')
    else if key !in st.members then Refused(WorkspaceNotFound, st, r, st')
    else if st.members[key].role == Member && requested != None && requested != Some(actor) then
      Refused(TaskPermissionDenied, st, r, st')
    else if id !in st.tasks || st.tasks[id].workspaceId != ws then Refused(TaskNotFound, st, r, st')
    else
      var a := st.tasks[id];
      var manager := st.members[key].role != Member;
      if manager && requested != a.assigneeId && requested.Some? && MemberKey(ws, requested.value) !in st.members then
        Refused(MemberNotFound, st, r, st')
      else if !manager && requested == None && a.assigneeId.Some? && a.assigneeId != Some(actor) then
        Refused(TaskPermissionDenied, st, r, st')
      else if !manager && requested == None && a.assigneeId == None then Refused(AssignmentConflict, st, r, st')
      else if !manager && requested.Some? && a.assigneeId.Some? && a.assigneeId != Some(actor) then
        Refused(AssignmentConflict, st, r, st')
      else if requested != a.assigneeId && a.status == Done then Refused(AssignmentConflict, st, r, st')
      else
        && r == None && OnlyTask(st, st', id)
        && var b := st'.tasks[id];
           && b.assigneeId == requested && b.status == a.status && TextKept(a, b) && OriginKept(a, b)
           && b.updatedAt == if a.assigneeId == requested then a.updatedAt else now
  }

  /** `create_task`. */
  ghost predicate CreatePromise(st: Store, ws: WorkspaceId, actor: UserId, title: string, description: Option<string>,
                                priority: int, now: Time, id: TaskId, st': Store) {
    && id == st.nextTaskId && id !in st.tasks && st'.nextTaskId == id + 1
    && id in st'.tasks && OnlyTasksDiffer(st, st') && OthersKept(st.tasks, st'.tasks, id)
    && var b := st'.tasks[id];
       && b.title == title && b.description == description && b.priority == priority
       && b.workspaceId == ws && b.creatorId == actor && b.assigneeId == None && b.status == Todo
       && b.createdAt == now && b.updatedAt == now
  }

  predicate MayEdit(accessRole: Role, actor: UserId, task: Task) {
    accessRole == Owner || accessRole == Admin || task.creatorId == actor
  }

  /** `update_task`. */
  ghost predicate EditPromise(st: Store, actor: UserId, accessRole: Role, id: TaskId, edit: TaskEdit, now: Time,
                              r: Option<Error>, st': Store)
    requires id in st.tasks
  {
    var a := st.tasks[id];
    if !MayEdit(accessRole, actor, a) then Refused(TaskPermissionDenied, st, r, st')
    else
      && r == None && OnlyTask(st, st', id)
      && var b := st'.tasks[id];
         && (if edit.title.Some? then edit.title == Some(b.title) else b.title == a.title)
         && (if edit.description.Some? then edit.description == Some(b.description) else b.description == a.description)
         && (if edit.priority.Some? then edit.priority == Some(b.priority) else b.priority == a.priority)
         && b.status == a.status && b.assigneeId == a.assigneeId && OriginKept(a, b)
         && b.updatedAt == if TextKept(a, b) then a.updatedAt else now
  }

  /** `delete_task`. */
  ghost predicate DeletePromise(st: Store, actor: UserId, accessRole: Role, id: TaskId, r: Option<Error>, st': Store)
    requires id in st.tasks
  {
    if !MayEdit(accessRole, actor, st.tasks[id]) then Refused(TaskPermissionDenied, st, r, st')
    else
      && r == None && id !in st'.tasks && OnlyTasksDiffer(st, st') && st'.nextTaskId == st.nextTaskId
      && OthersKept(st.tasks, st'.tasks, id)
  }

  // ---------------------------------------------------------------- members and workspaces

  /** What a removal does to a task of the workspace `ws` or any other. */
  predicate Unassigns(a: Task, b: Task, ws: WorkspaceId, user: UserId, now: Time) {
    && TextKept(a, b) && OriginKept(a, b) && b.status == a.status
    && if a.workspaceId == ws && a.assigneeId == Some(user) && (a.status == Todo || a.status == InProgress)
       then b.assigneeId == None && b.updatedAt == now
       else b.assigneeId == a.assigneeId && b.updatedAt == a.updatedAt
  }

  /** `remove_member`. */
  ghost predicate RemovePromise(st: Store, ws: WorkspaceId, actor: UserId, accessRole: Role, user: UserId, now: Time,
                                r: Option<Error>, st': Store) {
    var key := MemberKey(ws, user);
    if key !in st.members then Refused(MemberNotFound, st, r, st')
    else
      var target := st.members[key].role;
      var role := if user == actor then target else accessRole;
      if target == Owner then Refused(if role == Owner then OwnerConflict else WorkspacePermissionDenied, st, r, st')
      else if !(role == Owner || (role == Admin && target == Member)) || user == actor then
        Refused(WorkspacePermissionDenied, st, r, st')
      else
        && r == None && key !in st'.members && OthersKept(st.members, st'.members, key)
        && st'.users == st.users && st'.workspaces == st.workspaces
        && st'.nextUserId == st.nextUserId && st'.nextWorkspaceId == st.nextWorkspaceId
        && st'.nextTaskId == st.nextTaskId && st'.tasks.Keys == st.tasks.Keys
        && forall id :: id in st.tasks ==> Unassigns(st.tasks[id], st'.tasks[id], ws, user, now)
  }

  /** `update_member_role`. */
  ghost predicate RolePromise(st: Store, ws: WorkspaceId, accessRole: Role, user: UserId, requested: Role, now: Time,
                              r: Option<Error>, st': Store) {
    var key := MemberKey(ws, user);
    if key !in st.members then Refused(MemberNotFound, st, r, st')
    else if st.members[key].role == Owner then Refused(OwnerConflict, st, r, st')
    else if accessRole != Owner || requested == Owner then Refused(WorkspacePermissionDenied, st, r, st')
    else
      && r == None && OnlyMembersDiffer(st, st') && key in st'.members && OthersKept(st.members, st'.members, key)
      && var a, b := st.members[key], st'.members[key];
         && b.role == requested && b.joinedAt == a.joinedAt
         && b.updatedAt == if a.role == requested then a.updatedAt else now
  }

  /** `add_member`; `target` is the user with the given name, if there is one. */
  ghost predicate AddPromise(st: Store, ws: WorkspaceId, accessRole: Role, username: string, requested: Role, now: Time,
                             target: UserId, r: Option<Error>, st': Store) {
    var key := MemberKey(ws, target);
    if !((accessRole == Owner && (requested == Admin || requested == Member))
         || (accessRole == Admin && requested == Member)) then Refused(WorkspacePermissionDenied, st, r, st')
    else if forall u :: u in st.users ==> st.users[u] != username then Refused(UserNotFound, st, r, st')
    else if key in st.members then Refused(AlreadyMember, st, r, st')
    else
      && r == None && target in st.users && st.users[target] == username
      && OnlyMembersDiffer(st, st') && key in st'.members && OthersKept(st.members, st'.members, key)
      && var b := st'.members[key];
         b.role == requested && b.joinedAt == now && b.updatedAt == now
  }

  /** `create_workspace`. */
  ghost predicate WorkspacePromise(st: Store, actor: UserId, name: string, now: Time, id: WorkspaceId, st': Store) {
    var key := MemberKey(id, actor);
    && id == st.nextWorkspaceId && id !in st.workspaces && st'.nextWorkspaceId == id + 1
    && st'.users == st.users && st'.tasks == st.tasks
    && st'.nextUserId == st.nextUserId && st'.nextTaskId == st.nextTaskId
    && id in st'.workspaces && OthersKept(st.workspaces, st'.workspaces, id)
    && key in st'.members && OthersKept(st.members, st'.members, key)
    && (var b := st'.workspaces[id];
        b.name == name && b.createdById == actor && b.createdAt == now && b.updatedAt == now)
    && (var b := st'.members[key];
        b.role == Owner && b.joinedAt == now && b.updatedAt == now)
  }

  // ---------------------------------------------------------------- the atomic specification keeps them

  function Reply(outcome: Outcome): Option<Error> {
    if outcome.Rejected? then Some(outcome.error) else None
  }

  function Left(outcome: Outcome, st: Store): Store {
    if outcome.Rejected? then st else outcome.store
  }

  lemma AtomicStatusKeepsPromise(st: Store, ws: WorkspaceId, actor: UserId, id: TaskId, requested: Status, now: Time)
    ensures var o := AtomicStatus(st, ws, actor, id, requested, now);
            StatusPromise(st, ws, actor, id, requested, now, Reply(o), Left(o, st))
  {
  }

  lemma AtomicAssignKeepsPromise(st: Store, ws: WorkspaceId, actor: UserId, accessRole: Role, id: TaskId,
                                 requested: Option<UserId>, now: Time)
    requires accessRole == Member ==> requested == None || requested == Some(actor)
    ensures var o := AtomicAssign(st, ws, actor, id, requested, now);
            AssigneePromise(st, ws, actor, accessRole, id, requested, now, Reply(o), Left(o, st))
  {
  }

  lemma AtomicRemoveKeepsPromise(st: Store, ws: WorkspaceId, actor: UserId, accessRole: Role, user: UserId, now: Time)
    ensures var o := AtomicRemove(st, ws, actor, accessRole, user, {}, now);
            RemovePromise(st, ws, actor, accessRole, user, now, Reply(o), Left(o, st))
  {
    assert OpenWork(st, ws, user) - {} == OpenWork(st, ws, user);
  }

  /** The two steps a member's task can take: the assignee starts it and finishes it, and nobody can refuse. */
  lemma MemberFinishesTask(st: Store, ws: WorkspaceId, user: UserId, id: TaskId, t1: Time, t2: Time)
    requires MemberKey(ws, user) in st.members && st.members[MemberKey(ws, user)].role == Member
    requires id in st.tasks && st.tasks[id].workspaceId == ws
    requires st.tasks[id].assigneeId == Some(user) && st.tasks[id].status == Todo
    ensures var started := AtomicStatus(st, ws, user, id, InProgress, t1);
            && started.Accepted?
            && var finished := AtomicStatus(started.store, ws, user, id, Done, t2);
               finished.Accepted? && id in finished.store.tasks && finished.store.tasks[id].status == Done
  {
    AtomicStatusKeepsPromise(st, ws, user, id, InProgress, t1);
    var started := AtomicStatus(st, ws, user, id, InProgress, t1).store;
    AtomicStatusKeepsPromise(started, ws, user, id, Done, t2);
  }
}
