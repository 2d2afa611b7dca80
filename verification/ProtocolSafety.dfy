/** Each commit of the protocol is one atomic use case on the committed store, and each refusal decided on locked rows
    is the refusal of that use case. */
module ProtocolSafety {
  import opened Wrappers
  import opened Policies
  import opened Schema
  import opened Transactions
  import opened Protocol
  import opened ProtocolInvariant

  /** One atomic, policy-checked step of the request on the committed store, writing `w`. The access role `t.role` may
      be stale where the services trust it; every other guard is evaluated on `st` itself. A bulk unassign may miss
      tasks in `sparable`. An unchanged success writes nothing. */
  ghost predicate AtomicStep(st: Store, t: Txn, w: Write, sparable: set<TaskId>, st': Store, now: Time) {
    match t.op
    case SetStatus(id, status) =>
      && AtomicStatus(st, t.ws, t.actor, id, status, now) == Accepted(st')
      && w == if st.tasks[id].status == status then NoWrite else StatusWrite(id, status)
    case SetAssignee(id, assignee) =>
      && AtomicAssign(st, t.ws, t.actor, id, assignee, now) == Accepted(st')
      && w == if st.tasks[id].assigneeId == assignee then NoWrite else AssigneeWrite(id, assignee)
    case RemoveMember(user) =>
      exists spared ::
        && spared <= OpenWork(st, t.ws, user) * sparable
        && AtomicRemove(st, t.ws, t.actor, t.role, user, spared, now) == Accepted(st')
        && w == RemovalWrite(user, OpenWork(st, t.ws, user) - spared)
    case _ => AtomicUnlocked(st, t, w) && st' == Apply(st, t.ws, t.actor, w, now)
  }

  /** The requests without a locking read: what they write, and the guards that hold when they commit. */
  predicate AtomicUnlocked(st: Store, t: Txn, w: Write) {
    match t.op
    case AddMember(user, role) =>
      w == MemberWrite(user, role) && CanAddMember(t.role, role) && user in st.users && !IsMember(st, t.ws, user)
    case UpdateRole(user, role) =>
      w == NoWrite
      || (w == RoleWrite(user, role) && IsMember(st, t.ws, user)
          && CanUpdateMemberRole(t.role, st.members[MemberKey(t.ws, user)].role, role))
    case EditTask(id, edit) =>
      w == NoWrite
      || (w.EditWrite? && w.id == id && PartOf(w.edit, edit) && w.edit != TaskEdit(None, None, None)
          && HasTask(st, t.ws, id) && CanEditTask(t.role, t.actor, st.tasks[id].creatorId))
    case DeleteTask(id) =>
      if w == NoWrite then id !in st.tasks
      else w == DeleteWrite(id) && HasTask(st, t.ws, id) && CanDeleteTask(t.role, t.actor, st.tasks[id].creatorId)
    case CreateTask(title, description, priority) =>
      w == TaskInsert(title, description, priority) && t.ws in st.workspaces && t.actor in st.users
    case CreateWorkspace(name) => w == WorkspaceInsert(name) && t.actor in st.users
    case Register(username) => w == UserInsert(username) && username !in st.users.Values
    case _ => false
  }

  /** The effect of a commit event. */
  lemma CommitEffect(s: State, e: Event, w: Write)
    requires Inv(s) && Enabled(s, e) && CommitOf(s, e) == Some(w)
    ensures e.Run? && s.txns[e.i].phase == Committing(w) && Fire(s, e) == CommitState(s, e.i, w, e.now)
    ensures TxnOk(s.store, s.revived, s.txns[e.i]) && WriteReady(s.store, s.revived, s.txns[e.i], w)
  {
  }

  /** Steps and aborts leave the committed store alone. */
  lemma OnlyCommitsWrite(s: State, e: Event)
    requires Enabled(s, e) && CommitOf(s, e).None?
    ensures Fire(s, e).store == s.store
  {
  }

  /** A committed removal misses no row but those reopened behind its scan. */
  lemma RemovalIsAtomic(st: Store, revived: set<TaskId>, t: Txn, w: Write, now: Time)
    requires Consistent(st) && TxnOk(st, revived, t) && t.phase == Committing(w) && w.RemovalWrite?
    ensures AtomicStep(st, t, w, revived, Apply(st, t.ws, t.actor, w, now), now)
  {
    var open := OpenWork(st, t.ws, w.user);
    var spared := open - w.cleared;
    forall id | id in spared ensures id in revived { assert TaskConsistent(st, id); }
    assert open - spared == w.cleared;
    assert spared <= open * revived;
    assert AtomicRemove(st, t.ws, t.actor, t.role, w.user, spared, now) == Accepted(Apply(st, t.ws, t.actor, w, now));
  }

  lemma LockedCommitIsAtomic(st: Store, revived: set<TaskId>, t: Txn, w: Write, now: Time)
    requires Consistent(st) && TxnOk(st, revived, t) && t.phase == Committing(w) && TaskOf(t.op).Some?
    ensures AtomicStep(st, t, w, revived, Apply(st, t.ws, t.actor, w, now), now)
  {
    match t.op
    case SetStatus(id, status) =>
      assert LockedDecision(t) == StatusDecision(t.seen[t.actor], t.actor, st.tasks[id], status);
    case SetAssignee(id, assignee) =>
      var found := assignee.Some? && assignee.value in t.seen;
      assert LockedDecision(t) == AssigneeDecision(t.seen[t.actor], t.actor, st.tasks[id], assignee, found);
  }

  lemma UnlockedCommitIsAtomic(st: Store, revived: set<TaskId>, t: Txn, w: Write)
    requires Consistent(st) && TxnOk(st, revived, t) && t.phase == Committing(w)
    requires TaskOf(t.op).None? && !t.op.RemoveMember?
    requires w.UserInsert? ==> w.username !in st.users.Values
    ensures AtomicUnlocked(st, t, w)
  {
  }

  /** Each commit is one atomic step of its request at its commit point. */
  lemma CommitIsAtomic(s: State, e: Event, w: Write)
    requires Inv(s) && Enabled(s, e) && CommitOf(s, e) == Some(w)
    ensures AtomicStep(s.store, s.txns[e.i], w, s.revived, Fire(s, e).store, e.now)
  {
    CommitEffect(s, e, w);
    var st, t := s.store, s.txns[e.i];
    if TaskOf(t.op).Some? {
      LockedCommitIsAtomic(st, s.revived, t, w, e.now);
    } else if t.op.RemoveMember? {
      RemovalIsAtomic(st, s.revived, t, w, e.now);
    } else {
      UnlockedCommitIsAtomic(st, s.revived, t, w);
    }
  }

  // ---------------------------------------------------------------- refusals

  /** The atomic use case refuses with this error on this store. */
  predicate RefusedBy(st: Store, t: Txn, error: Error, now: Time) {
    match t.op
    case SetStatus(id, status) => AtomicStatus(st, t.ws, t.actor, id, status, now) == Rejected(error)
    case SetAssignee(id, assignee) => AtomicAssign(st, t.ws, t.actor, id, assignee, now) == Rejected(error)
    case RemoveMember(user) => AtomicRemove(st, t.ws, t.actor, t.role, user, {}, now) == Rejected(error)
    case _ => false
  }

  /** The refusal is due to a membership that was not there when it was looked up. */
  predicate RefusedAsMissing(t: Txn, error: Error) {
    match t.op
    case SetStatus(_, _) => error == WorkspaceNotFound && t.actor !in t.seen
    case SetAssignee(_, assignee) =>
      || (error == WorkspaceNotFound && t.actor !in t.seen)
      || (error == MemberNotFound && assignee.Some? && assignee.value !in t.seen)
    case RemoveMember(user) => error == MemberNotFound && user !in t.seen
    case _ => false
  }

  predicate DecidesOnLockedRows(t: Txn) {
    t.phase == Locking([]) || t.phase.LockingTask? || t.phase.Deciding?
  }

  /** Every refusal decided on locked rows is what the atomic use case answers at that moment, unless it reports a
      membership that was missing when its row was asked for. */
  lemma RejectionIsAtomic(s: State, e: Event, error: Error)
    requires Inv(s) && Enabled(s, e) && e.Run? && DecidesOnLockedRows(s.txns[e.i])
    requires Fire(s, e).txns[e.i].phase == Finished(Aborted(error))
    ensures RefusedBy(s.store, s.txns[e.i], error, e.now) || RefusedAsMissing(s.txns[e.i], error)
  {
    var t := s.txns[e.i];
    assert TxnOk(s.store, s.revived, t);
    match t.phase
    case Locking(_) => MembershipRefusal(s.store, s.revived, t, error, e.now);
    case LockingTask => TaskRefusal(s.store, s.revived, t, error, e.now);
    case Deciding => DecisionRefusal(s.store, s.revived, t, error, e.now);
  }

  lemma MembershipRefusal(st: Store, revived: set<TaskId>, t: Txn, error: Error, now: Time)
    requires TxnOk(st, revived, t) && t.phase == Locking([]) && MembershipsLocked(t).phase == Finished(Aborted(error))
    ensures RefusedBy(st, t, error, now) || RefusedAsMissing(t, error)
  {
  }

  lemma TaskRefusal(st: Store, revived: set<TaskId>, t: Txn, error: Error, now: Time)
    requires TxnOk(st, revived, t) && t.phase.LockingTask?
    requires LockTask(st, t).Pass? && LockTask(st, t).next.phase == Finished(Aborted(error))
    ensures RefusedBy(st, t, error, now)
  {
  }

  lemma DecisionRefusal(st: Store, revived: set<TaskId>, t: Txn, error: Error, now: Time)
    requires TxnOk(st, revived, t) && t.phase.Deciding? && Decide(t).phase == Finished(Aborted(error))
    ensures RefusedBy(st, t, error, now) || RefusedAsMissing(t, error)
  {
    assert LockedDecision(t) == Reject(error);
  }
}
