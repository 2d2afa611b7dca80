/** The write requests of the API, the decisions their services take, and the writes they make.
    `Atomic` is the specification of the locked use cases: the whole service call in one step. */
module Transactions {
  import opened Wrappers
  import opened Policies
  import opened Schema

  /** A PATCH body: only the fields the client sent. */
  datatype TaskEdit = TaskEdit(title: Option<string>, description: Option<Option<string>>, priority: Option<int>)

  datatype Op =
    | SetStatus(taskId: TaskId, status: Status)
    | SetAssignee(taskId: TaskId, assignee: Option<UserId>)
    | RemoveMember(user: UserId)
    | AddMember(user: UserId, role: Role)
    | UpdateRole(user: UserId, role: Role)
    | EditTask(taskId: TaskId, edit: TaskEdit)
    | DeleteTask(taskId: TaskId)
    | CreateTask(title: string, description: Option<string>, priority: int)
    | CreateWorkspace(name: string)
    | Register(username: string)

  datatype Error =
    | InvalidToken | UsernameTaken | UserNotFound
    | WorkspaceNotFound | WorkspacePermissionDenied
    | MemberNotFound | AlreadyMember | OwnerConflict
    | TaskNotFound | TaskPermissionDenied | TransitionConflict | AssignmentConflict
    | DatabaseError

  /** What a locked service decides: reject, succeed without a write, or write. */
  datatype Decision = Reject(error: Error) | Keep | Change

  function StatusDecision(role: Role, actor: UserId, task: Task, requested: Status): Decision {
    if !CanChangeTaskStatus(role, actor, task.assigneeId) then Reject(TaskPermissionDenied)
    else if !IsValidStatusTransition(role, task.status, requested) then Reject(TransitionConflict)
    else if task.status == requested then Keep
    else Change
  }

  /** A MEMBER may only name itself or nobody. */
  predicate MayRequestAssignee(role: Role, actor: UserId, requested: Option<UserId>) {
    role == Member ==> requested in {None, Some(actor)}
  }

  function AssigneeDecision(role: Role, actor: UserId, task: Task, requested: Option<UserId>,
                            targetFound: bool): Decision {
    if !MayRequestAssignee(role, actor, requested) then Reject(TaskPermissionDenied)
    else if IsManager(role) && task.assigneeId == requested then Keep
    else if IsManager(role) && requested.Some? && !targetFound then Reject(MemberNotFound)
    else if role == Member && requested.Some? && task.assigneeId == requested then Keep
    else if role == Member && requested.None? && task.assigneeId.Some? && task.assigneeId != Some(actor) then
      Reject(TaskPermissionDenied)
    else if role == Member && (requested.Some? <==> task.assigneeId.Some?) then Reject(AssignmentConflict)
    else if task.status == Done then Reject(AssignmentConflict)
    else Change
  }

  /** Declarative form of a permitted reassignment, over the facts that must hold when it commits. */
  predicate MayReassign(role: Role, actor: UserId, task: Task, requested: Option<UserId>, targetIsMember: bool) {
    && task.status != Done
    && task.assigneeId != requested
    && if IsManager(role) then requested.Some? ==> targetIsMember
       else CanSelfClaimTask(role, actor, task.assigneeId, requested)
            || CanSelfReleaseTask(role, actor, task.assigneeId, requested)
  }

  lemma ChangeIffMayReassign(role: Role, actor: UserId, task: Task, requested: Option<UserId>, targetFound: bool)
    ensures AssigneeDecision(role, actor, task, requested, targetFound) == Change
       <==> MayReassign(role, actor, task, requested, targetFound)
  {
  }

  // ---------------------------------------------------------------- writes

  datatype Write =
    | NoWrite
    | StatusWrite(id: TaskId, status: Status)
    | AssigneeWrite(id: TaskId, assignee: Option<UserId>)
    | RemovalWrite(user: UserId, cleared: set<TaskId>)
    | MemberWrite(user: UserId, role: Role)
    | RoleWrite(user: UserId, role: Role)
    | EditWrite(id: TaskId, edit: TaskEdit)
    | DeleteWrite(id: TaskId)
    | TaskInsert(title: string, description: Option<string>, priority: int)
    | WorkspaceInsert(name: string)
    | UserInsert(username: string)

  function OrElse<T>(choice: Option<T>, default: T): T {
    if choice.Some? then choice.value else default
  }

  function Edited(task: Task, edit: TaskEdit, now: Time): Task {
    task.(title := OrElse(edit.title, task.title),
          description := OrElse(edit.description, task.description),
          priority := OrElse(edit.priority, task.priority),
          updatedAt := now)
  }

  /** The ORM only writes columns whose value differs from the one it loaded. */
  function ChangedColumns(task: Task, edit: TaskEdit): TaskEdit {
    TaskEdit(if edit.title == Some(task.title) then None else edit.title,
             if edit.description == Some(task.description) then None else edit.description,
             if edit.priority == Some(task.priority) then None else edit.priority)
  }

  /** Every written column carries the value the request asked for. */
  predicate PartOf(columns: TaskEdit, edit: TaskEdit) {
    && (columns.title.Some? ==> columns.title == edit.title)
    && (columns.description.Some? ==> columns.description == edit.description)
    && (columns.priority.Some? ==> columns.priority == edit.priority)
  }

  /** The bulk unassign: `assignee_id := NULL` on the given rows. */
  function Unassigned(tasks: map<TaskId, Task>, cleared: set<TaskId>, now: Time): map<TaskId, Task> {
    map id | id in tasks :: if id in cleared then tasks[id].(assigneeId := None, updatedAt := now) else tasks[id]
  }

  /** The committed rows after a transaction's private writes become visible. An UPDATE or DELETE of a missing row
      changes nothing. */
  function Apply(st: Store, ws: WorkspaceId, actor: UserId, w: Write, now: Time): Store {
    match w
    case NoWrite => st
    case StatusWrite(id, status) =>
      if id !in st.tasks then st
      else st.(tasks := st.tasks[id := st.tasks[id].(status := status, updatedAt := now)])
    case AssigneeWrite(id, assignee) =>
      if id !in st.tasks then st
      else st.(tasks := st.tasks[id := st.tasks[id].(assigneeId := assignee, updatedAt := now)])
    case RemovalWrite(user, cleared) =>
      st.(tasks := Unassigned(st.tasks, cleared, now), members := st.members - {MemberKey(ws, user)})
    case MemberWrite(user, role) =>
      st.(members := st.members[MemberKey(ws, user) := Membership(role, now, now)])
    case RoleWrite(user, role) =>
      var key := MemberKey(ws, user);
      if key !in st.members then st
      else st.(members := st.members[key := st.members[key].(role := role, updatedAt := now)])
    case EditWrite(id, edit) =>
      if id !in st.tasks then st else st.(tasks := st.tasks[id := Edited(st.tasks[id], edit, now)])
    case DeleteWrite(id) => st.(tasks := st.tasks - {id})
    case TaskInsert(title, description, priority) =>
      st.(tasks := st.tasks[st.nextTaskId := Task(title, description, priority, ws, actor, None, Todo, now, now)],
          nextTaskId := st.nextTaskId + 1)
    case WorkspaceInsert(name) =>
      st.(workspaces := st.workspaces[st.nextWorkspaceId := Workspace(name, actor, now, now)],
          members := st.members[MemberKey(st.nextWorkspaceId, actor) := Membership(Owner, now, now)],
          nextWorkspaceId := st.nextWorkspaceId + 1)
    case UserInsert(username) =>
      st.(users := st.users[st.nextUserId := username], nextUserId := st.nextUserId + 1)
  }

  // ---------------------------------------------------------------- atomic specification

  datatype Outcome = Accepted(store: Store) | Rejected(error: Error)

  function Settle(st: Store, ws: WorkspaceId, actor: UserId, decision: Decision, w: Write, now: Time): Outcome {
    match decision
    case Reject(error) => Rejected(error)
    case Keep => Accepted(st)
    case Change => Accepted(Apply(st, ws, actor, w, now))
  }

  function AtomicStatus(st: Store, ws: WorkspaceId, actor: UserId, id: TaskId, requested: Status, now: Time): Outcome {
    if !IsMember(st, ws, actor) then Rejected(WorkspaceNotFound)
    else if !HasTask(st, ws, id) then Rejected(TaskNotFound)
    else Settle(st, ws, actor, StatusDecision(st.members[MemberKey(ws, actor)].role, actor, st.tasks[id], requested),
                StatusWrite(id, requested), now)
  }

  function AtomicAssign(st: Store, ws: WorkspaceId, actor: UserId, id: TaskId, requested: Option<UserId>,
                        now: Time): Outcome {
    if !IsMember(st, ws, actor) then Rejected(WorkspaceNotFound)
    else
      var role := st.members[MemberKey(ws, actor)].role;
      if !MayRequestAssignee(role, actor, requested) then Rejected(TaskPermissionDenied)
      else if !HasTask(st, ws, id) then Rejected(TaskNotFound)
      else
        var found := requested.Some? && IsMember(st, ws, requested.value);
        Settle(st, ws, actor, AssigneeDecision(role, actor, st.tasks[id], requested, found),
               AssigneeWrite(id, requested), now)
  }

  /** Which role of the actor a removal goes by: the one the access dependency read, unless the locking read has just
      refreshed that very membership, because the actor is the target. */
  function RemoverRole(actor: UserId, accessRole: Role, user: UserId, locked: Role): Role {
    if user == actor then locked else accessRole
  }

  /** So nobody can remove themselves, whatever the access dependency had read. */
  lemma SelfRemovalIsRefused(st: Store, ws: WorkspaceId, actor: UserId, accessRole: Role, spared: set<TaskId>,
                             now: Time)
    ensures AtomicRemove(st, ws, actor, accessRole, actor, spared, now)
         == Rejected(if !IsMember(st, ws, actor) then MemberNotFound
                     else if st.members[MemberKey(ws, actor)].role == Owner then OwnerConflict
                     else WorkspacePermissionDenied)
  {
  }

  /** The removal with the actor's role as read by the access dependency. Tasks in `spared` keep their assignee. */
  function AtomicRemove(st: Store, ws: WorkspaceId, actor: UserId, actorRole: Role, user: UserId, spared: set<TaskId>,
                        now: Time): Outcome {
    if !IsMember(st, ws, user) then Rejected(MemberNotFound)
    else
      var target := st.members[MemberKey(ws, user)].role;
      var role := RemoverRole(actor, actorRole, user, target);
      if target == Owner then Rejected(if role == Owner then OwnerConflict else WorkspacePermissionDenied)
      else if !CanRemoveMember(role, target) then Rejected(WorkspacePermissionDenied)
      else Accepted(Apply(st, ws, actor, RemovalWrite(user, OpenWork(st, ws, user) - spared), now))
  }
}
