/** Over any run, every change of any column is the one that the committing request asked for, and the columns nobody
    can ask for never change. Stated on the rows and the requests alone. */
module ColumnHistory {
  import opened Wrappers
  import opened Policies
  import opened Schema
  import opened Transactions
  import opened Protocol
  import opened ProtocolInvariant
  import opened ProtocolSafety

  /** The request that moves at this event commits. */
  predicate CommitsAt(s: State, e: Event) {
    Enabled(s, e) && CommitOf(s, e).Some?
  }

  function OpAt(s: State, e: Event): Op
    requires Enabled(s, e)
  {
    s.txns[e.i].op
  }

  function NowAt(e: Event): Time {
    if e.Run? then e.now else 0
  }

  // ---------------------------------------------------------------- the columns of a task

  datatype Column = Title | Description | Priority

  predicate SameColumn(column: Column, a: Task, b: Task) {
    match column
    case Title => a.title == b.title
    case Description => a.description == b.description
    case Priority => a.priority == b.priority
  }

  /** The edit sends this column with the value the row has. */
  predicate Sends(column: Column, edit: TaskEdit, row: Task) {
    match column
    case Title => edit.title == Some(row.title)
    case Description => edit.description == Some(row.description)
    case Priority => edit.priority == Some(row.priority)
  }

  /** Every difference between two rows of a task has its cause in the committed request. */
  ghost predicate TaskChangeExplained(op: Op, ws: WorkspaceId, id: TaskId, a: Task, b: Task, now: Time) {
    && b.workspaceId == a.workspaceId && b.creatorId == a.creatorId && b.createdAt == a.createdAt
    && (forall column: Column :: !SameColumn(column, a, b) ==>
          op.EditTask? && op.taskId == id && Sends(column, op.edit, b))
    && (b.status != a.status ==> op == SetStatus(id, b.status))
    && (b.assigneeId != a.assigneeId ==>
          || op == SetAssignee(id, b.assigneeId)
          || (b.assigneeId == None && a.status != Done && a.workspaceId == ws
              && op == RemoveMember(a.assigneeId.value)))
    && (b != a ==> b.updatedAt == now)
  }

  lemma EditExplainsTask(st: Store, revived: set<TaskId>, t: Txn, w: Write, now: Time, id: TaskId)
    requires TxnOk(st, revived, t) && t.phase == Committing(w) && w.EditWrite?
    requires id in st.tasks && id in Apply(st, t.ws, t.actor, w, now).tasks
    ensures TaskChangeExplained(t.op, t.ws, id, st.tasks[id], Apply(st, t.ws, t.actor, w, now).tasks[id], now)
  {
  }

  lemma FlowExplainsTask(st: Store, revived: set<TaskId>, t: Txn, w: Write, now: Time, id: TaskId)
    requires TxnOk(st, revived, t) && t.phase == Committing(w)
    requires w.StatusWrite? || w.AssigneeWrite? || w.RemovalWrite?
    requires id in st.tasks && id in Apply(st, t.ws, t.actor, w, now).tasks
    ensures TaskChangeExplained(t.op, t.ws, id, st.tasks[id], Apply(st, t.ws, t.actor, w, now).tasks[id], now)
  {
  }

  lemma WriteExplainsTask(st: Store, revived: set<TaskId>, t: Txn, w: Write, now: Time, id: TaskId)
    requires Consistent(st) && TxnOk(st, revived, t) && t.phase == Committing(w)
    requires id in st.tasks && id in Apply(st, t.ws, t.actor, w, now).tasks
    ensures TaskChangeExplained(t.op, t.ws, id, st.tasks[id], Apply(st, t.ws, t.actor, w, now).tasks[id], now)
  {
    if w.EditWrite? {
      EditExplainsTask(st, revived, t, w, now, id);
    } else if w.StatusWrite? || w.AssigneeWrite? || w.RemovalWrite? {
      FlowExplainsTask(st, revived, t, w, now, id);
    } else {
      assert TaskConsistent(st, id);
      assert Apply(st, t.ws, t.actor, w, now).tasks[id] == st.tasks[id];
    }
  }

  /** A task keeps its workspace, creator and creation time; any other column changes only at a commit that asked for
      exactly that. */
  lemma TaskChange(s: State, e: Event, id: TaskId)
    requires Inv(s) && Enabled(s, e) && id in s.store.tasks && id in Fire(s, e).store.tasks
    ensures Fire(s, e).store.tasks[id] != s.store.tasks[id] ==> CommitsAt(s, e)
    ensures TaskChangeExplained(OpAt(s, e), s.txns[e.i].ws, id, s.store.tasks[id], Fire(s, e).store.tasks[id], NowAt(e))
  {
    match CommitOf(s, e)
    case None => OnlyCommitsWrite(s, e);
    case Some(w) =>
      CommitEffect(s, e, w);
      WriteExplainsTask(s.store, s.revived, s.txns[e.i], w, e.now, id);
  }

  /** A new task is the one the committed creation asked for; a task disappears only at a committed deletion. */
  lemma TaskComesAndGoes(s: State, e: Event, id: TaskId)
    requires Inv(s) && Enabled(s, e)
    ensures id !in s.store.tasks && id in Fire(s, e).store.tasks ==>
              && CommitsAt(s, e) && id == s.store.nextTaskId
              && var b := Fire(s, e).store.tasks[id];
                 && OpAt(s, e) == CreateTask(b.title, b.description, b.priority)
                 && b.workspaceId == s.txns[e.i].ws && b.creatorId == s.txns[e.i].actor
                 && b.assigneeId == None && b.status == Todo && b.createdAt == NowAt(e) && b.updatedAt == NowAt(e)
    ensures id in s.store.tasks && id !in Fire(s, e).store.tasks ==>
              CommitsAt(s, e) && OpAt(s, e) == DeleteTask(id) && s.store.tasks[id].workspaceId == s.txns[e.i].ws
  {
    match CommitOf(s, e)
    case None => OnlyCommitsWrite(s, e);
    case Some(w) => CommitEffect(s, e, w);
  }

  // ---------------------------------------------------------------- memberships, workspaces, users

  /** A membership keeps its joining time; its role changes only at a committed role update to that role. */
  lemma MembershipChange(s: State, e: Event, k: MemberKey)
    requires Inv(s) && Enabled(s, e) && k in s.store.members && k in Fire(s, e).store.members
    ensures var a, b := s.store.members[k], Fire(s, e).store.members[k];
            && b.joinedAt == a.joinedAt
            && (b != a ==> CommitsAt(s, e) && s.txns[e.i].ws == k.workspaceId && b.updatedAt == NowAt(e)
                           && OpAt(s, e) == UpdateRole(k.userId, b.role))
  {
    match CommitOf(s, e)
    case None => OnlyCommitsWrite(s, e);
    case Some(w) => CommitEffect(s, e, w);
  }

  /** A new membership is the one a committed addition asked for, or the OWNER of a workspace created with it; one
      disappears only at a committed removal of that member. */
  lemma MembershipComesAndGoes(s: State, e: Event, k: MemberKey)
    requires Inv(s) && Enabled(s, e)
    ensures k !in s.store.members && k in Fire(s, e).store.members ==>
              && CommitsAt(s, e)
              && var b := Fire(s, e).store.members[k];
                 && b.joinedAt == NowAt(e) && b.updatedAt == NowAt(e)
                 && ((OpAt(s, e) == AddMember(k.userId, b.role) && s.txns[e.i].ws == k.workspaceId)
                     || (OpAt(s, e).CreateWorkspace? && k.workspaceId == s.store.nextWorkspaceId
                         && k.userId == s.txns[e.i].actor && b.role == Owner))
    ensures k in s.store.members && k !in Fire(s, e).store.members ==>
              CommitsAt(s, e) && OpAt(s, e) == RemoveMember(k.userId) && s.txns[e.i].ws == k.workspaceId
  {
    match CommitOf(s, e)
    case None => OnlyCommitsWrite(s, e);
    case Some(w) => CommitEffect(s, e, w);
  }

  /** Workspaces and users never change or disappear; new ones are as the committed request asked. */
  lemma WorkspacesAndUsers(s: State, e: Event)
    requires Inv(s) && Enabled(s, e)
    ensures forall w :: w in s.store.workspaces ==>
              w in Fire(s, e).store.workspaces && Fire(s, e).store.workspaces[w] == s.store.workspaces[w]
    ensures forall w :: w in Fire(s, e).store.workspaces && w !in s.store.workspaces ==>
              && CommitsAt(s, e) && w == s.store.nextWorkspaceId
              && var b := Fire(s, e).store.workspaces[w];
                 && OpAt(s, e) == CreateWorkspace(b.name) && b.createdById == s.txns[e.i].actor
                 && b.createdAt == NowAt(e) && b.updatedAt == NowAt(e)
    ensures forall u :: u in s.store.users ==>
              u in Fire(s, e).store.users && Fire(s, e).store.users[u] == s.store.users[u]
    ensures forall u :: u in Fire(s, e).store.users && u !in s.store.users ==>
              CommitsAt(s, e) && u == s.store.nextUserId && OpAt(s, e) == Register(Fire(s, e).store.users[u])
  {
    match CommitOf(s, e)
    case None => OnlyCommitsWrite(s, e);
    case Some(w) => CommitEffect(s, e, w);
  }

  // ---------------------------------------------------------------- what a success achieves

  /** The state a successful request asked for. A role update or edit that writes found it so before. */
  predicate Achieved(st: Store, t: Txn, st': Store, changed: bool) {
    match t.op
    case SetStatus(id, status) => id in st'.tasks && st'.tasks[id].status == status
    case SetAssignee(id, assignee) => id in st'.tasks && st'.tasks[id].assigneeId == assignee
    case RemoveMember(user) => MemberKey(t.ws, user) !in st'.members
    case AddMember(user, role) =>
      MemberKey(t.ws, user) in st'.members && st'.members[MemberKey(t.ws, user)].role == role
    case UpdateRole(user, role) =>
      changed ==> MemberKey(t.ws, user) in st'.members && st'.members[MemberKey(t.ws, user)].role == role
    case EditTask(id, edit) =>
      changed ==> id in st'.tasks && exists column: Column :: Sends(column, edit, st'.tasks[id])
    case DeleteTask(id) => id !in st'.tasks
    case CreateTask(_, _, _) => st.nextTaskId in st'.tasks && st.nextTaskId !in st.tasks
    case CreateWorkspace(_) => st.nextWorkspaceId in st'.workspaces && st.nextWorkspaceId !in st.workspaces
    case Register(_) => st.nextUserId in st'.users && st.nextUserId !in st.users
  }

  lemma LockedAchieves(st: Store, revived: set<TaskId>, t: Txn, w: Write, now: Time)
    requires TxnOk(st, revived, t) && t.phase == Committing(w) && TaskOf(t.op).Some?
    ensures Achieved(st, t, Apply(st, t.ws, t.actor, w, now), w != NoWrite)
  {
    match t.op
    case SetStatus(id, status) =>
      assert LockedDecision(t) == StatusDecision(t.seen[t.actor], t.actor, st.tasks[id], status);
    case SetAssignee(id, assignee) =>
      var found := assignee.Some? && assignee.value in t.seen;
      assert LockedDecision(t) == AssigneeDecision(t.seen[t.actor], t.actor, st.tasks[id], assignee, found);
  }

  lemma UnlockedAchieves(st: Store, revived: set<TaskId>, t: Txn, w: Write, now: Time)
    requires Consistent(st) && TxnOk(st, revived, t) && t.phase == Committing(w) && TaskOf(t.op).None?
    ensures Achieved(st, t, Apply(st, t.ws, t.actor, w, now), w != NoWrite)
  {
    if t.op.EditTask? && w.EditWrite? { EditSendsColumn(st.tasks[w.id], w.edit, t.op.edit, now); }
    assert forall id :: id in st.tasks ==> TaskConsistent(st, id);
  }

  /** Every success leaves what its request asked for. */
  lemma CommitAchieves(s: State, e: Event, w: Write)
    requires Inv(s) && Enabled(s, e) && CommitOf(s, e) == Some(w)
    ensures Achieved(s.store, s.txns[e.i], Fire(s, e).store, w != NoWrite)
  {
    CommitEffect(s, e, w);
    if TaskOf(s.txns[e.i].op).Some? {
      LockedAchieves(s.store, s.revived, s.txns[e.i], w, e.now);
    } else {
      UnlockedAchieves(s.store, s.revived, s.txns[e.i], w, e.now);
    }
  }

  lemma EditSendsColumn(task: Task, columns: TaskEdit, edit: TaskEdit, now: Time)
    requires PartOf(columns, edit) && columns != TaskEdit(None, None, None)
    ensures exists column: Column :: Sends(column, edit, Edited(task, columns, now))
  {
    if columns.title.Some? {
      assert Sends(Title, edit, Edited(task, columns, now));
    } else if columns.description.Some? {
      assert Sends(Description, edit, Edited(task, columns, now));
    } else {
      assert columns.priority.Some?;
      assert Sends(Priority, edit, Edited(task, columns, now));
    }
  }

  // ---------------------------------------------------------------- whole runs

  predicate Exists(states: seq<State>, m: nat, id: TaskId)
    requires m < |states|
  {
    id in states[m].store.tasks
  }

  predicate SameOrigin(states: seq<State>, from: nat, to: nat, id: TaskId)
    requires from < |states| && to < |states|
  {
    && id in states[from].store.tasks && id in states[to].store.tasks
    && var a, b := states[from].store.tasks[id], states[to].store.tasks[id];
       b.workspaceId == a.workspaceId && b.creatorId == a.creatorId && b.createdAt == a.createdAt
  }

  predicate OriginStays(states: seq<State>, m: nat, id: TaskId)
    requires m + 1 < |states|
  {
    SameOrigin(states, m, m + 1, id)
  }

  lemma {:induction false} OriginChain(states: seq<State>, from: nat, to: nat, id: TaskId)
    requires from < to < |states| && forall m :: from <= m < to ==> OriginStays(states, m, id)
    ensures SameOrigin(states, from, to, id)
    decreases (to - from)
  {
    assert OriginStays(states, to - 1, id);
    if from < to - 1 { OriginChain(states, from, to - 1, id); }
  }

  /** As long as a task exists, its workspace, creator and creation time are what they were. */
  lemma OriginNeverChanges(states: seq<State>, events: seq<Event>, from: nat, to: nat, id: TaskId)
    requires IsRun(states, events) && Inv(states[0]) && from < to < |states|
    requires forall m :: from <= m <= to ==> Exists(states, m, id)
    ensures SameOrigin(states, from, to, id)
  {
    forall m | from <= m < to ensures OriginStays(states, m, id) {
      assert Exists(states, m, id) && Exists(states, m + 1, id);
      RunKeepsInv(states, events, m);
      TaskChange(states[m], events[m], id);
    }
    OriginChain(states, from, to, id);
  }

  predicate ColumnKept(states: seq<State>, m: nat, id: TaskId, column: Column)
    requires m + 1 < |states|
  {
    && id in states[m].store.tasks && id in states[m + 1].store.tasks
    && SameColumn(column, states[m].store.tasks[id], states[m + 1].store.tasks[id])
  }

  lemma {:induction false} KeptThroughout(states: seq<State>, from: nat, to: nat, id: TaskId, column: Column)
    requires from < to < |states| && forall m :: from <= m < to ==> ColumnKept(states, m, id, column)
    ensures id in states[from].store.tasks && id in states[to].store.tasks
    ensures SameColumn(column, states[from].store.tasks[id], states[to].store.tasks[id])
    decreases (to - from)
  {
    assert ColumnKept(states, to - 1, id, column);
    if from < to - 1 { KeptThroughout(states, from, to - 1, id, column); }
  }

  /** A title, description or priority that differs between two states was sent by an edit of that task committed in
      between. */
  lemma ChangedColumnWasSent(states: seq<State>, events: seq<Event>, from: nat, to: nat, id: TaskId, column: Column)
    returns (m: nat)
    requires IsRun(states, events) && Inv(states[0]) && from < to < |states|
    requires forall m :: from <= m <= to ==> Exists(states, m, id)
    requires Exists(states, from, id) && Exists(states, to, id)
    requires !SameColumn(column, states[from].store.tasks[id], states[to].store.tasks[id])
    ensures from <= m < to && CommitsAt(states[m], events[m]) && OpAt(states[m], events[m]).EditTask?
    ensures OpAt(states[m], events[m]).taskId == id && id in states[m + 1].store.tasks
    ensures Sends(column, OpAt(states[m], events[m]).edit, states[m + 1].store.tasks[id])
  {
    if forall m :: from <= m < to ==> ColumnKept(states, m, id, column) {
      KeptThroughout(states, from, to, id, column);
    }
    m :| from <= m < to && !ColumnKept(states, m, id, column);
    assert Exists(states, m, id) && Exists(states, m + 1, id);
    RunKeepsInv(states, events, m);
    TaskChange(states[m], events[m], id);
  }

  predicate JoinedAt(states: seq<State>, m: nat, k: MemberKey, at: Time)
    requires m < |states|
  {
    k in states[m].store.members && states[m].store.members[k].joinedAt == at
  }

  predicate MemberIn(states: seq<State>, m: nat, k: MemberKey)
    requires m < |states|
  {
    k in states[m].store.members
  }

  lemma JoinedStep(states: seq<State>, events: seq<Event>, m: nat, k: MemberKey, at: Time)
    requires IsRun(states, events) && Inv(states[0]) && m < |events|
    requires JoinedAt(states, m, k, at) && MemberIn(states, m + 1, k)
    ensures JoinedAt(states, m + 1, k, at)
  {
    RunKeepsInv(states, events, m);
    MembershipChange(states[m], events[m], k);
  }

  /** As long as a membership exists, its joining time is what it was. */
  lemma {:induction false} JoiningTimeNeverChanges(
    states: seq<State>, events: seq<Event>, from: nat, to: nat, k: MemberKey, at: Time)
    requires IsRun(states, events) && Inv(states[0]) && from <= to < |states| && JoinedAt(states, from, k, at)
    requires forall m :: from <= m <= to ==> MemberIn(states, m, k)
    ensures JoinedAt(states, to, k, at)
    decreases (to - from)
  {
    if from < to {
      JoiningTimeNeverChanges(states, events, from, to - 1, k, at);
      JoinedStep(states, events, to - 1, k, at);
    }
  }
}
