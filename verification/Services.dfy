/** The write services of app/services as they run in one database session: step by step over the tables, with the
    branches of the source. Each is proved against the atomic specification the concurrent protocol refines. */
module Services {
  import opened Wrappers
  import opened Policies
  import opened Schema
  import opened Transactions
  import opened Promises
  import opened ProtocolInvariant
  import opened ProtocolHistory

  /** A rejected request leaves every table as it was; an accepted one leaves exactly the specified store. */
  predicate Answers(outcome: Outcome, before: Store, r: Option<Error>, after: Store) {
    match outcome
    case Rejected(error) => r == Some(error) && after == before
    case Accepted(st) => r == None && after == st
  }

  /** Nothing refers to a task, so deleting one breaks no foreign key and changes no ownership. */
  lemma StoreWithoutTask(before: Store, after: Store, id: TaskId)
    requires after == before.(tasks := before.tasks - {id})
    ensures Consistent(before) ==> Consistent(after)
    ensures forall w :: SoleOwner(before, w) <==> SoleOwner(after, w)
  {
    if Consistent(before) {
      forall t | t in after.tasks ensures TaskConsistent(after, t) { assert TaskConsistent(before, t); }
    }
    forall w ensures SoleOwner(before, w) <==> SoleOwner(after, w) {
      assert forall u :: OwnsWorkspace(before, w, u) <==> OwnsWorkspace(after, w, u);
    }
  }

  class Session {
    var users: map<UserId, string>
    var workspaces: map<WorkspaceId, Workspace>
    var members: map<MemberKey, Membership>
    var tasks: map<TaskId, Task>
    var nextUserId: nat
    var nextWorkspaceId: nat
    var nextTaskId: nat

    function View(): Store
      reads this
    {
      Store(users, workspaces, members, tasks, nextUserId, nextWorkspaceId, nextTaskId)
    }

    method LockWorkspaceMemberships(ws: WorkspaceId, userIds: set<UserId>) returns (found: map<UserId, Membership>)
      ensures forall u :: u in found <==> u in userIds && IsMember(View(), ws, u)
      ensures forall u :: u in found ==> IsMember(View(), ws, u) && found[u] == View().members[MemberKey(ws, u)]
    {
      found := map u | u in userIds && MemberKey(ws, u) in members :: members[MemberKey(ws, u)];
    }

    method UpdateTaskStatus(ws: WorkspaceId, actor: UserId, id: TaskId, requested: Status, now: Time)
      returns (r: Option<Error>)
      modifies `tasks
      ensures Answers(AtomicStatus(old(View()), ws, actor, id, requested, now), old(View()), r, View())
      ensures StatusPromise(old(View()), ws, actor, id, requested, now, r, View())
    {
      var memberships := LockWorkspaceMemberships(ws, {actor});
      if actor !in memberships {
        return Some(WorkspaceNotFound);
      }
      var role := memberships[actor].role;
      if id !in tasks || tasks[id].workspaceId != ws {
        return Some(TaskNotFound);
      }
      var task := tasks[id];
      if !CanChangeTaskStatus(role, actor, task.assigneeId) {
        return Some(TaskPermissionDenied);
      }
      if !IsValidStatusTransition(role, task.status, requested) {
        return Some(TransitionConflict);
      }
      if task.status == requested {
        return None;
      }
      tasks := tasks[id := task.(status := requested, updatedAt := now)];
      return None;
    }

    /** `accessRole` is the role the access dependency read before the service started. */
    method UpdateTaskAssignee(ws: WorkspaceId, actor: UserId, accessRole: Role, id: TaskId, requested: Option<UserId>,
                              now: Time)
      returns (r: Option<Error>)
      modifies `tasks
      ensures MayRequestAssignee(accessRole, actor, requested)
              ==> Answers(AtomicAssign(old(View()), ws, actor, id, requested, now), old(View()), r, View())
      ensures !MayRequestAssignee(accessRole, actor, requested)
              ==> Answers(Rejected(TaskPermissionDenied), old(View()), r, View())
      ensures AssigneePromise(old(View()), ws, actor, accessRole, id, requested, now, r, View())
    {
      if accessRole == Member && requested !in {None, Some(actor)} {
        return Some(TaskPermissionDenied);
      }
      var membershipIds := {actor};
      if requested.Some? {
        membershipIds := membershipIds + {requested.value};
      }
      var memberships := LockWorkspaceMemberships(ws, membershipIds);
      if actor !in memberships {
        return Some(WorkspaceNotFound);
      }
      var role := memberships[actor].role;
      if role == Member && requested !in {None, Some(actor)} {
        return Some(TaskPermissionDenied);
      }
      if id !in tasks || tasks[id].workspaceId != ws {
        return Some(TaskNotFound);
      }
      var task := tasks[id];
      var current := task.assigneeId;
      if CanChangeTaskAssignee(role) {
        if current == requested {
          return None;
        }
        if requested.Some? && requested.value !in memberships {
          return Some(MemberNotFound);
        }
        if task.status == Done {
          return Some(AssignmentConflict);
        }
      } else {
        if requested == Some(actor) {
          if current == Some(actor) {
            return None;
          }
          if !CanSelfClaimTask(role, actor, current, requested) {
            return Some(AssignmentConflict);
          }
        } else {
          if current == None {
            return Some(AssignmentConflict);
          }
          if current != Some(actor) {
            return Some(TaskPermissionDenied);
          }
          if !CanSelfReleaseTask(role, actor, current, requested) {
            return Some(TaskPermissionDenied);
          }
        }
        if task.status == Done {
          return Some(AssignmentConflict);
        }
      }
      tasks := tasks[id := task.(assigneeId := requested, updatedAt := now)];
      return None;
    }

    method RemoveMember(ws: WorkspaceId, actor: UserId, accessRole: Role, user: UserId, now: Time)
      returns (r: Option<Error>)
      modifies `tasks, `members
      ensures Answers(AtomicRemove(old(View()), ws, actor, accessRole, user, {}, now), old(View()), r, View())
      ensures RemovePromise(old(View()), ws, actor, accessRole, user, now, r, View())
      ensures r == None ==> !IsMember(View(), ws, user) && OpenWork(View(), ws, user) == {}
    {
      AtomicRemoveKeepsPromise(View(), ws, actor, accessRole, user, now);
      var key := MemberKey(ws, user);
      if key !in members {
        return Some(MemberNotFound);
      }
      var membership := members[key];
      var actorRole := RemoverRole(actor, accessRole, user, membership.role);
      if membership.role == Owner {
        if actorRole == Owner {
          return Some(OwnerConflict);
        }
        return Some(WorkspacePermissionDenied);
      }
      if !CanRemoveMember(actorRole, membership.role) {
        return Some(WorkspacePermissionDenied);
      }
      tasks := map id | id in tasks ::
        if tasks[id].workspaceId == ws && tasks[id].assigneeId == Some(user) && tasks[id].status != Done
        then tasks[id].(assigneeId := None, updatedAt := now) else tasks[id];
      members := members - {key};
      assert OpenWork(old(View()), ws, user) - {} == OpenWork(old(View()), ws, user);
      return None;
    }

    method UpdateMemberRole(ws: WorkspaceId, actor: UserId, accessRole: Role, user: UserId, requested: Role, now: Time)
      returns (r: Option<Error>)
      modifies `members
      ensures var st := old(View());
              Answers(
                if !IsMember(st, ws, user) then Rejected(MemberNotFound)
                else if OwnsWorkspace(st, ws, user) then Rejected(OwnerConflict)
                else if accessRole != Owner || requested == Owner then Rejected(WorkspacePermissionDenied)
                else if st.members[MemberKey(ws, user)].role == requested then Accepted(st)
                else Accepted(Apply(st, ws, actor, RoleWrite(user, requested), now)),
                st, r, View())
      ensures RolePromise(old(View()), ws, accessRole, user, requested, now, r, View())
      ensures forall w, u :: OwnsWorkspace(View(), w, u) <==> OwnsWorkspace(old(View()), w, u)
    {
      var key := MemberKey(ws, user);
      if key !in members {
        return Some(MemberNotFound);
      }
      var membership := members[key];
      if membership.role == Owner {
        return Some(OwnerConflict);
      }
      if !CanUpdateMemberRole(accessRole, membership.role, requested) {
        return Some(WorkspacePermissionDenied);
      }
      if membership.role != requested {
        members := members[key := membership.(role := requested, updatedAt := now)];
      }
      return None;
    }

    method AddMember(ws: WorkspaceId, actor: UserId, accessRole: Role, username: string, requested: Role, now: Time)
      returns (r: Option<Error>, ghost target: UserId)
      modifies `members
      ensures Answers(
                if !CanAddMember(accessRole, requested) then Rejected(WorkspacePermissionDenied)
                else if username !in old(users).Values then Rejected(UserNotFound)
                else if IsMember(old(View()), ws, target) then Rejected(AlreadyMember)
                else Accepted(Apply(old(View()), ws, actor, MemberWrite(target, requested), now)),
                old(View()), r, View())
      ensures AddPromise(old(View()), ws, accessRole, username, requested, now, target, r, View())
      ensures CanAddMember(accessRole, requested) && username in old(users).Values ==>
                target in old(users) && old(users)[target] == username
      ensures forall w, u :: OwnsWorkspace(View(), w, u) <==> OwnsWorkspace(old(View()), w, u)
    {
      target := 0;
      if !CanAddMember(accessRole, requested) {
        return Some(WorkspacePermissionDenied), target;
      }
      var matches := set u | u in users && users[u] == username;
      if matches == {} {
        assert forall u :: u in users && users[u] == username ==> u in matches;
        return Some(UserNotFound), target;
      }
      var user :| user in matches;
      target := user;
      var key := MemberKey(ws, user);
      if key in members {
        return Some(AlreadyMember), target;
      }
      members := members[key := Membership(requested, now, now)];
      return None, target;
    }

    method CreateWorkspace(actor: UserId, name: string, now: Time) returns (id: WorkspaceId)
      requires Consistent(View()) && actor in users
      modifies `workspaces, `members, `nextWorkspaceId
      ensures id !in old(workspaces) && View() == Apply(old(View()), id, actor, WorkspaceInsert(name), now)
      ensures WorkspacePromise(old(View()), actor, name, now, id, View())
      ensures SoleOwner(View(), id) && workspaces[id].createdById == actor
      ensures forall ws :: SoleOwner(old(View()), ws) ==> SoleOwner(View(), ws)
    {
      id := nextWorkspaceId;
      assert id !in workspaces;
      workspaces := workspaces[id := Workspace(name, actor, now, now)];
      nextWorkspaceId := nextWorkspaceId + 1;
      members := members[MemberKey(id, actor) := Membership(Owner, now, now)];
      assert forall u :: u != actor ==> MemberKey(id, u) !in members;
      forall ws | SoleOwner(old(View()), ws) ensures SoleOwner(View(), ws) {
        forall u ensures OwnsWorkspace(View(), ws, u) <==> u == View().workspaces[ws].createdById {
          assert OwnsWorkspace(old(View()), ws, u) <==> u == old(View()).workspaces[ws].createdById;
        }
      }
    }

    method CreateTask(ws: WorkspaceId, actor: UserId, title: string, description: Option<string>, priority: int,
                      now: Time)
      returns (id: TaskId)
      requires Consistent(View()) && ws in workspaces && actor in users
      modifies `tasks, `nextTaskId
      ensures id !in old(tasks)
              && View() == Apply(old(View()), ws, actor, TaskInsert(title, description, priority), now)
      ensures CreatePromise(old(View()), ws, actor, title, description, priority, now, id, View())
      ensures Consistent(View())
    {
      id := nextTaskId;
      assert id in tasks ==> TaskConsistent(View(), id);
      tasks := tasks[id := Task(title, description, priority, ws, actor, None, Todo, now, now)];
      nextTaskId := nextTaskId + 1;
      forall t | t in tasks ensures TaskConsistent(View(), t) {
        if t != id { assert TaskConsistent(old(View()), t); }
      }
    }

    method UpdateTask(ws: WorkspaceId, actor: UserId, accessRole: Role, id: TaskId, edit: TaskEdit, now: Time)
      returns (r: Option<Error>)
      requires HasTask(View(), ws, id)
      modifies `tasks
      ensures var st := old(View());
              Answers(
                if !CanEditTask(accessRole, actor, st.tasks[id].creatorId) then Rejected(TaskPermissionDenied)
                else if ChangedColumns(st.tasks[id], edit) == TaskEdit(None, None, None) then Accepted(st)
                else Accepted(Apply(st, ws, actor, EditWrite(id, ChangedColumns(st.tasks[id], edit)), now)),
                st, r, View())
      ensures EditPromise(old(View()), actor, accessRole, id, edit, now, r, View())
      ensures r == None ==>
                && edit.title in {None, Some(tasks[id].title)}
                && edit.description in {None, Some(tasks[id].description)}
                && edit.priority in {None, Some(tasks[id].priority)}
    {
      var task := tasks[id];
      if !CanEditTask(accessRole, actor, task.creatorId) {
        return Some(TaskPermissionDenied);
      }
      var edited := task;
      if edit.title.Some? {
        edited := edited.(title := edit.title.value);
      }
      if edit.description.Some? {
        edited := edited.(description := edit.description.value);
      }
      if edit.priority.Some? {
        edited := edited.(priority := edit.priority.value);
      }
      if edited != task {
        tasks := tasks[id := edited.(updatedAt := now)];
      }
      return None;
    }

    method DeleteTask(ws: WorkspaceId, actor: UserId, accessRole: Role, id: TaskId) returns (r: Option<Error>)
      requires HasTask(View(), ws, id)
      modifies `tasks
      ensures Answers(
                if !CanDeleteTask(accessRole, actor, old(tasks)[id].creatorId) then Rejected(TaskPermissionDenied)
                else Accepted(Apply(old(View()), ws, actor, DeleteWrite(id), 0)),
                old(View()), r, View())
      ensures DeletePromise(old(View()), actor, accessRole, id, r, View())
      ensures r == None ==> id !in tasks && nextTaskId == old(nextTaskId)
      ensures forall t :: t != id ==> (t in tasks <==> t in old(tasks)) && (t in tasks ==> tasks[t] == old(tasks)[t])
      ensures Consistent(old(View())) ==> Consistent(View())
      ensures forall w :: SoleOwner(old(View()), w) <==> SoleOwner(View(), w)
    {
      if !CanDeleteTask(accessRole, actor, tasks[id].creatorId) {
        return Some(TaskPermissionDenied);
      }
      tasks := tasks - {id};
      StoreWithoutTask(old(View()), View(), id);
      return None;
    }
  }
}
