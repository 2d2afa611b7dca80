/** Whole runs against the atomic specification: what each commit is, where the unlocked facts it relies on were read,
    and what each refusal decided on locked rows is. */
module ProtocolRefinement {
  import opened Wrappers
  import opened Policies
  import opened Schema
  import opened Transactions
  import opened Protocol
  import opened ProtocolInvariant
  import opened ProtocolSafety
  import opened UnfinishedWork

  // ---------------------------------------------------------------- requests over a run

  predicate SameRequest(t: Txn, t': Txn) {
    t'.ws == t.ws && t'.actor == t.actor && t'.op == t.op
  }

  /** An event moves one transaction, keeps its request, and its role once the access dependency has read it. */
  lemma FireKeepsRequests(s: State, e: Event)
    requires Enabled(s, e)
    ensures Fire(s, e).txns == s.txns[e.i := Fire(s, e).txns[e.i]]
    ensures SameRequest(s.txns[e.i], Fire(s, e).txns[e.i])
    ensures !s.txns[e.i].phase.Begin? ==> Fire(s, e).txns[e.i].role == s.txns[e.i].role
  {
    if e.Run? { MoveKeepsRequest(s.store, s.txns[e.i]); }
  }

  predicate KeepsRequest(t: Txn, n: Txn) {
    SameRequest(t, n) && (!t.phase.Begin? ==> n.role == t.role)
  }

  lemma MoveKeepsRequest(st: Store, t: Txn)
    ensures match NextMove(st, t)
            case Continue(n) => KeepsRequest(t, n)
            case Take(_, n) => KeepsRequest(t, n)
            case Pass(_, n) => KeepsRequest(t, n)
            case _ => true
  {
    if t.phase.Begin? { AccessKeepsRequest(st, t); }
  }

  lemma AccessKeepsRequest(st: Store, t: Txn)
    ensures SameRequest(t, Access(st, t))
  {
  }

  lemma NothingRead(s: State)
    requires NothingStarted(s)
    ensures forall i :: 0 <= i < |s.txns| ==> s.txns[i].phase.Begin? && s.txns[i].seen == map[]
  {
    forall i | 0 <= i < |s.txns| ensures s.txns[i].phase.Begin? && s.txns[i].seen == map[] {
      assert s.txns[i] == Request(s.txns[i].ws, s.txns[i].actor, s.txns[i].op);
    }
  }

  // ---------------------------------------------------------------- what was read without a lock

  /** The access dependency runs in this state and reads this role. */
  predicate ReadsRole(s: State, i: nat, t: Txn) {
    && i < |s.txns| && s.txns[i].phase.Begin?
    && IsMember(s.store, t.ws, t.actor) && s.store.members[MemberKey(t.ws, t.actor)].role == t.role
  }

  /** What the access dependency and the first unlocked check demand of these rows and the role. */
  predicate Admits(st: Store, t: Txn) {
    match t.op
    case SetStatus(id, _) => TaskThere(st, t.ws, id)
    case SetAssignee(id, assignee) =>
      TaskThere(st, t.ws, id) && (t.role == Member ==> assignee == None || assignee == Some(t.actor))
    case RemoveMember(_) => t.role == Owner || t.role == Admin
    case AddMember(_, role) => (t.role == Owner && role != Owner) || (t.role == Admin && role == Member)
    case UpdateRole(_, _) => t.role == Owner
    case EditTask(id, _) => TaskThere(st, t.ws, id) && (t.role == Member ==> st.tasks[id].creatorId == t.actor)
    case DeleteTask(id) => TaskThere(st, t.ws, id) && (t.role == Member ==> st.tasks[id].creatorId == t.actor)
    case _ => true
  }

  predicate TaskThere(st: Store, ws: WorkspaceId, id: TaskId) {
    id in st.tasks && st.tasks[id].workspaceId == ws
  }

  predicate Admitted(s: State, i: nat, t: Txn) {
    ReadsRole(s, i, t) && Admits(s.store, t)
  }

  predicate Underway(t: Txn) {
    ForWorkspace(t.op) && !t.phase.Begin? && !t.phase.Finished?
  }

  lemma RoleStep(s: State, e: Event, i: nat)
    requires Enabled(s, e) && i < |Fire(s, e).txns| && Underway(Fire(s, e).txns[i])
    ensures i < |s.txns| && SameRequest(s.txns[i], Fire(s, e).txns[i])
    ensures Admitted(s, i, Fire(s, e).txns[i]) || (Underway(s.txns[i]) && s.txns[i].role == Fire(s, e).txns[i].role)
  {
    FireKeepsRequests(s, e);
    if e.i == i && e.Run? && s.txns[i].phase.Begin? { AccessAdmits(s.store, s.txns[i]); }
  }

  lemma AccessAdmits(st: Store, t: Txn)
    requires ForWorkspace(t.op) && !Access(st, t).phase.Finished?
    ensures Admits(st, Access(st, t))
  {
  }

  predicate RoleExplained(states: seq<State>, k: nat, i: nat)
    requires k + 1 < |states|
  {
    i < |states[k + 1].txns| && Underway(states[k + 1].txns[i]) ==>
      && i < |states[k].txns| && SameRequest(states[k].txns[i], states[k + 1].txns[i])
      && (|| Admitted(states[k], i, states[k + 1].txns[i])
          || (Underway(states[k].txns[i]) && states[k].txns[i].role == states[k + 1].txns[i].role))
  }

  lemma {:induction false} RoleChain(states: seq<State>, k: nat, i: nat) returns (j: nat)
    requires |states| > 0 && NothingStarted(states[0]) && k < |states|
    requires forall m :: 0 <= m < k ==> RoleExplained(states, m, i)
    requires i < |states[k].txns| && Underway(states[k].txns[i])
    ensures j < k && Admitted(states[j], i, states[k].txns[i])
    decreases k
  {
    NothingRead(states[0]);
    assert RoleExplained(states, k - 1, i);
    if Admitted(states[k - 1], i, states[k].txns[i]) {
      j := k - 1;
    } else {
      j := RoleChain(states, k - 1, i);
    }
  }

  /** The actor's role that a request goes by was committed when its access dependency ran, and passed its gate. */
  lemma RoleWasRead(states: seq<State>, events: seq<Event>, k: nat, i: nat) returns (j: nat)
    requires IsRun(states, events) && NothingStarted(states[0]) && k < |states|
    requires i < |states[k].txns| && Underway(states[k].txns[i])
    ensures j < k && Admitted(states[j], i, states[k].txns[i])
  {
    forall m | 0 <= m < k ensures RoleExplained(states, m, i) {
      if i < |states[m + 1].txns| && Underway(states[m + 1].txns[i]) { RoleStep(states[m], events[m], i); }
    }
    j := RoleChain(states, k, i);
  }

  predicate Plans(t: Txn, w: Write) {
    t.phase == Writing(w) || t.phase == Committing(w)
  }

  /** On these rows a role update or an edit passes its policy and amounts to exactly this write. An unchanged success
      means that the target's role, or every sent column, already was as requested. */
  predicate PlannedOn(st: Store, t: Txn, w: Write) {
    match t.op
    case UpdateRole(user, role) =>
      && IsMember(st, t.ws, user)
      && CanUpdateMemberRole(t.role, st.members[MemberKey(t.ws, user)].role, role)
      && w == if st.members[MemberKey(t.ws, user)].role == role then NoWrite else RoleWrite(user, role)
    case EditTask(id, edit) =>
      && HasTask(st, t.ws, id)
      && CanEditTask(t.role, t.actor, st.tasks[id].creatorId)
      && (match w
          case NoWrite => Shows(st.tasks[id], edit)
          case EditWrite(id', columns) => id' == id && columns == ChangedColumns(st.tasks[id], edit)
          case _ => false)
    case _ => false
  }

  /** The row has every value the edit asks for. */
  predicate Shows(task: Task, edit: TaskEdit) {
    && edit.title in {None, Some(task.title)}
    && edit.description in {None, Some(task.description)}
    && edit.priority in {None, Some(task.priority)}
  }

  predicate PlansUnlocked(op: Op) {
    op.UpdateRole? || op.EditTask?
  }

  lemma AccessPlans(st: Store, t: Txn, w: Write)
    requires t.phase.Begin? && Plans(Access(st, t), w) && PlansUnlocked(t.op)
    ensures PlannedOn(st, Access(st, t), w)
  {
  }

  lemma TargetReadPlans(st: Store, t: Txn, w: Write)
    requires t.phase.ReadTarget? && Plans(TargetRead(st, t), w) && PlansUnlocked(t.op)
    ensures PlannedOn(st, TargetRead(st, t), w)
  {
  }

  lemma WriteKeepsPlan(st: Store, revived: set<TaskId>, t: Txn, w: Write)
    requires TxnOk(st, revived, t) && t.phase.Writing? && PlansUnlocked(t.op)
    ensures match LockForWrite(st, t, t.phase.plan)
            case Take(_, n) => Plans(n, w) ==> Plans(t, w)
            case Pass(_, n) => n.phase.Finished?
            case _ => false
  {
  }

  lemma MovePlans(st: Store, revived: set<TaskId>, t: Txn, w: Write)
    requires TxnOk(st, revived, t) && PlansUnlocked(t.op)
    ensures match NextMove(st, t)
            case Continue(n) => Plans(n, w) ==> PlannedOn(st, n, w)
            case Take(_, n) => Plans(n, w) ==> Plans(t, w)
            case Pass(_, n) => !Plans(n, w)
            case _ => true
  {
    match t.phase
    case Begin => if Plans(Access(st, t), w) { AccessPlans(st, t, w); }
    case ReadTarget => if Plans(TargetRead(st, t), w) { TargetReadPlans(st, t, w); }
    case Writing(_) => WriteKeepsPlan(st, revived, t, w);
    case _ =>
  }

  lemma PlanStep(s: State, e: Event, i: nat, w: Write)
    requires Inv(s) && Enabled(s, e) && i < |s.txns| && Plans(Fire(s, e).txns[i], w) && PlansUnlocked(s.txns[i].op)
    ensures PlannedOn(s.store, Fire(s, e).txns[i], w)
            || (Plans(s.txns[i], w) && s.txns[i].role == Fire(s, e).txns[i].role)
  {
    FireKeepsRequests(s, e);
    if e.i == i && e.Run? { MovePlans(s.store, s.revived, s.txns[i], w); }
  }

  lemma RunPlanStep(states: seq<State>, events: seq<Event>, k: nat, i: nat, w: Write)
    requires IsRun(states, events) && Inv(states[0]) && k < |events|
    requires i < |states[k + 1].txns| && Plans(states[k + 1].txns[i], w) && PlansUnlocked(states[k + 1].txns[i].op)
    ensures i < |states[k].txns| && SameRequest(states[k].txns[i], states[k + 1].txns[i])
    ensures PlannedOn(states[k].store, states[k + 1].txns[i], w)
            || (Plans(states[k].txns[i], w) && states[k].txns[i].role == states[k + 1].txns[i].role)
  {
    RunKeepsInv(states, events, k);
    FireKeepsRequests(states[k], events[k]);
    PlanStep(states[k], events[k], i, w);
  }

  /** What a role update or edit writes was decided on an earlier committed state. */
  lemma {:induction false} PlanWasRead(states: seq<State>, events: seq<Event>, k: nat, i: nat, w: Write)
    returns (j: nat)
    requires IsRun(states, events) && Initial(states[0]) && k < |states|
    requires i < |states[k].txns| && Plans(states[k].txns[i], w) && PlansUnlocked(states[k].txns[i].op)
    ensures j < k && PlannedOn(states[j].store, states[k].txns[i], w)
    decreases k
  {
    NothingRead(states[0]);
    InitialKeepsInv(states[0]);
    RunPlanStep(states, events, k - 1, i, w);
    if PlannedOn(states[k - 1].store, states[k].txns[i], w) {
      j := k - 1;
    } else {
      j := PlanWasRead(states, events, k - 1, i, w);
    }
  }

  // ---------------------------------------------------------------- refinement

  lemma MoveTakesLock(st: Store, t: Txn, u: UserId)
    requires t.op == RemoveMember(u)
    ensures match NextMove(st, t)
            case Continue(n) => u in n.seen ==> u in t.seen
            case Take(r, n) => u in n.seen ==> u in t.seen || r == MemberLock(MemberKey(t.ws, u))
            case Pass(_, n) => u in n.seen ==> u in t.seen
            case _ => true
  {
    if t.phase.Begin? { assert Access(st, t).seen.Keys <= t.seen.Keys; }
  }

  lemma RunLockStep(states: seq<State>, events: seq<Event>, k: nat, i: nat, u: UserId)
    requires IsRun(states, events) && k < |events|
    requires i < |states[k + 1].txns| && states[k + 1].txns[i].op == RemoveMember(u) && u in states[k + 1].txns[i].seen
    ensures i < |states[k].txns| && SameRequest(states[k].txns[i], states[k + 1].txns[i])
    ensures u in states[k].txns[i].seen
            || (events[k].i == i && TakesRemovalRow(states[k], events[k], states[k].txns[i].ws, u))
  {
    FireKeepsRequests(states[k], events[k]);
    MoveTakesLock(states[k].store, states[k].txns[i], u);
  }

  lemma {:induction false} LockWasTaken(states: seq<State>, events: seq<Event>, k: nat, i: nat, u: UserId)
    returns (j: nat)
    requires IsRun(states, events) && NothingStarted(states[0]) && k < |states|
    requires i < |states[k].txns| && states[k].txns[i].op == RemoveMember(u) && u in states[k].txns[i].seen
    ensures j < k && events[j].i == i && TakesRemovalRow(states[j], events[j], states[k].txns[i].ws, u)
    decreases k
  {
    NothingRead(states[0]);
    RunLockStep(states, events, k - 1, i, u);
    if u in states[k - 1].txns[i].seen {
      j := LockWasTaken(states, events, k - 1, i, u);
    } else {
      j := k - 1;
    }
  }

  /** A manager reopened the task while the removal of `u` that moves at event `k` held the membership row. */
  ghost predicate ReopenedSinceLock(states: seq<State>, events: seq<Event>, k: nat, ws: WorkspaceId, u: UserId,
                                    id: TaskId)
    requires IsRun(states, events) && k < |events|
  {
    exists j: nat, m: nat ::
      && j < m < k
      && events[j].i == events[k].i && TakesRemovalRow(states[j], events[j], ws, u)
      && ReopensForLeaver(states[m], events[m], id)
  }

  /** The tasks that a removal moving at event `k` may miss; nobody else misses any. */
  ghost function Sparable(states: seq<State>, events: seq<Event>, k: nat): set<TaskId>
    requires IsRun(states, events) && k < |events|
  {
    var t := states[k].txns[events[k].i];
    if !t.op.RemoveMember? then {}
    else set id | id in states[k].store.tasks && ReopenedSinceLock(states, events, k, t.ws, t.op.user, id)
  }

  lemma MissedIsSparable(states: seq<State>, events: seq<Event>, k: nat, id: TaskId)
    requires IsRun(states, events) && Initial(states[0]) && k < |events| && CommitOf(states[k], events[k]).Some?
    requires MissedByRemoval(states[k].store, states[k].txns[events[k].i].ws, CommitOf(states[k], events[k]).value, id)
    ensures id in Sparable(states, events, k)
  {
    var i, w := events[k].i, CommitOf(states[k], events[k]).value;
    InitialKeepsInv(states[0]);
    RunKeepsInv(states, events, k);
    CommitEffect(states[k], events[k], w);
    var j := LockWasTaken(states, events, k, i, w.user);
    var m := MissedWasReopened(states, events, j, k, id);
    assert ReopenedSinceLock(states, events, k, states[k].txns[i].ws, w.user, id);
  }

  /** What a commit is: one atomic step on the store at that moment, writing what its answer says; its access role, and
      the plan of a role update or edit, were read from an earlier committed state of this run. */
  ghost predicate CommitRefines(states: seq<State>, events: seq<Event>, k: nat, w: Write)
    requires IsRun(states, events) && k < |events|
  {
    var i := events[k].i;
    var t := states[k].txns[i];
    && events[k].Run?
    && AtomicStep(states[k].store, t, w, Sparable(states, events, k), states[k + 1].store, events[k].now)
    && i < |states[k + 1].txns| && states[k + 1].txns[i].phase == Finished(Committed(w != NoWrite))
    && (ForWorkspace(t.op) ==> exists j: nat :: j < k && Admitted(states[j], i, t))
    && (PlansUnlocked(t.op) ==> exists j: nat :: j < k && PlannedOn(states[j].store, t, w))
  }

  lemma RemovalRefines(states: seq<State>, events: seq<Event>, k: nat, w: Write)
    requires IsRun(states, events) && Initial(states[0]) && k < |events| && CommitOf(states[k], events[k]) == Some(w)
    requires w.RemovalWrite?
    ensures events[k].Run?
    ensures AtomicStep(states[k].store, states[k].txns[events[k].i], w, Sparable(states, events, k),
                       states[k + 1].store, events[k].now)
  {
    var st, t := states[k].store, states[k].txns[events[k].i];
    InitialKeepsInv(states[0]);
    RunKeepsInv(states, events, k);
    CommitEffect(states[k], events[k], w);
    forall id | id in OpenWork(st, t.ws, w.user) - w.cleared ensures id in Sparable(states, events, k) {
      MissedIsSparable(states, events, k, id);
    }
    RemovalWithin(st, states[k].revived, Sparable(states, events, k), t, w, events[k].now);
  }

  lemma RemovalWithin(st: Store, revived: set<TaskId>, sparable: set<TaskId>, t: Txn, w: Write, now: Time)
    requires Consistent(st) && TxnOk(st, revived, t) && t.phase == Committing(w) && w.RemovalWrite?
    requires OpenWork(st, t.ws, w.user) - w.cleared <= sparable
    ensures AtomicStep(st, t, w, sparable, Apply(st, t.ws, t.actor, w, now), now)
  {
    var open := OpenWork(st, t.ws, w.user);
    assert open - (open - w.cleared) == w.cleared;
    assert open - w.cleared <= open * sparable;
  }

  /** Every run refines the atomic specification: its store changes only by atomic steps, one per commit. */
  lemma RunRefinesAtomic(states: seq<State>, events: seq<Event>, k: nat)
    requires IsRun(states, events) && Initial(states[0]) && k < |events|
    ensures match CommitOf(states[k], events[k])
            case None => states[k + 1].store == states[k].store
            case Some(w) => CommitRefines(states, events, k, w)
  {
    InitialKeepsInv(states[0]);
    RunKeepsInv(states, events, k);
    match CommitOf(states[k], events[k])
    case None => OnlyCommitsWrite(states[k], events[k]);
    case Some(w) =>
      var i := events[k].i;
      var t := states[k].txns[i];
      CommitEffect(states[k], events[k], w);
      if w.RemovalWrite? { RemovalRefines(states, events, k, w); } else { CommitIsAtomic(states[k], events[k], w); }
      if ForWorkspace(t.op) { var j := RoleWasRead(states, events, k, i); }
      if PlansUnlocked(t.op) { var j := PlanWasRead(states, events, k, i, w); }
  }

  // ---------------------------------------------------------------- refusals

  /** The row of this membership was asked for in this state, and there was none. */
  predicate LookedUpMissing(s: State, i: nat, u: UserId) {
    && i < |s.txns| && s.txns[i].phase.Locking? && s.txns[i].phase.todo != [] && s.txns[i].phase.todo[0] == u
    && !IsMember(s.store, s.txns[i].ws, u)
  }

  predicate AskedFor(t: Txn, u: UserId) {
    Locks(t, u) && (t.phase.LockingTask? || t.phase.Deciding? || (t.phase.Locking? && u !in t.phase.todo))
  }

  lemma LookupStep(s: State, e: Event, i: nat, u: UserId)
    requires Enabled(s, e) && i < |s.txns| && AskedFor(Fire(s, e).txns[i], u) && u !in Fire(s, e).txns[i].seen
    ensures LookedUpMissing(s, i, u) || (AskedFor(s.txns[i], u) && u !in s.txns[i].seen)
  {
    FireKeepsRequests(s, e);
    if e.i == i {
      match s.txns[i].phase
      case Begin => AccessAsksAll(s.store, s.txns[i], u);
      case Locking(todo) => assert todo != [] ==> forall x :: x in todo ==> x == todo[0] || x in todo[1..];
      case _ =>
    }
  }

  lemma AccessAsksAll(st: Store, t: Txn, u: UserId)
    requires t.phase.Begin?
    ensures !AskedFor(Access(st, t), u)
  {
    if t.op.SetAssignee? { assert Locks(t, u) ==> u in LockOrder(t.actor, t.op.assignee); }
  }

  lemma {:induction false} LookedUp(states: seq<State>, events: seq<Event>, k: nat, i: nat, u: UserId) returns (j: nat)
    requires IsRun(states, events) && NothingStarted(states[0]) && k < |states|
    requires i < |states[k].txns| && AskedFor(states[k].txns[i], u) && u !in states[k].txns[i].seen
    ensures j < k && LookedUpMissing(states[j], i, u) && SameRequest(states[j].txns[i], states[k].txns[i])
    decreases k
  {
    NothingRead(states[0]);
    FireKeepsRequests(states[k - 1], events[k - 1]);
    LookupStep(states[k - 1], events[k - 1], i, u);
    if LookedUpMissing(states[k - 1], i, u) {
      j := k - 1;
    } else {
      j := LookedUp(states, events, k - 1, i, u);
    }
  }

  /** The membership whose absence this refusal reports. */
  function ReportedUser(t: Txn, error: Error): UserId {
    match t.op
    case SetAssignee(_, Some(user)) => if error == MemberNotFound then user else t.actor
    case RemoveMember(user) => user
    case _ => t.actor
  }

  /** Every refusal decided on locked rows is the atomic refusal at that moment, or reports a membership that did not
      exist at the moment its row was asked for. */
  lemma RefusalsAreJustified(states: seq<State>, events: seq<Event>, k: nat, error: Error)
    requires IsRun(states, events) && Initial(states[0]) && k < |events|
    requires events[k].Run? && DecidesOnLockedRows(states[k].txns[events[k].i])
    requires states[k + 1].txns[events[k].i].phase == Finished(Aborted(error))
    ensures var i := events[k].i;
            var t := states[k].txns[i];
            || RefusedBy(states[k].store, t, error, events[k].now)
            || (RefusedAsMissing(t, error)
                && exists j: nat :: j < k && LookedUpMissing(states[j], i, ReportedUser(t, error)))
  {
    var i := events[k].i;
    var t := states[k].txns[i];
    InitialKeepsInv(states[0]);
    RunKeepsInv(states, events, k);
    RejectionIsAtomic(states[k], events[k], error);
    if !RefusedBy(states[k].store, t, error, events[k].now) {
      var j := LookedUp(states, events, k, i, ReportedUser(t, error));
    }
  }

  // ---------------------------------------------------------------- refusals without a lock

  /** This refusal is true of these rows, for a request with this access role. */
  predicate RefusedOn(st: Store, t: Txn, error: Error) {
    match error
    case InvalidToken => t.op.CreateWorkspace? && t.actor !in st.users
    case UsernameTaken => t.op.Register? && t.op.username in st.users.Values
    case WorkspaceNotFound => ForWorkspace(t.op) && !IsMember(st, t.ws, t.actor)
    case TaskNotFound => AddressedTask(t.op).Some? && !HasTask(st, t.ws, AddressedTask(t.op).value)
    case TaskPermissionDenied => TaskForbidden(st, t)
    case WorkspacePermissionDenied => MemberForbidden(st, t)
    case UserNotFound => t.op.AddMember? && t.op.user !in st.users
    case AlreadyMember => t.op.AddMember? && IsMember(st, t.ws, t.op.user)
    case MemberNotFound => t.op.UpdateRole? && !IsMember(st, t.ws, t.op.user)
    case OwnerConflict => t.op.UpdateRole? && OwnsWorkspace(st, t.ws, t.op.user)
    case DatabaseError => RowVanished(st, t.op, t.ws)
    case _ => false
  }

  function AddressedTask(op: Op): Option<TaskId> {
    match op
    case SetStatus(id, _) => Some(id)
    case SetAssignee(id, _) => Some(id)
    case EditTask(id, _) => Some(id)
    case DeleteTask(id) => Some(id)
    case _ => None
  }

  predicate TaskForbidden(st: Store, t: Txn) {
    match t.op
    case SetAssignee(_, assignee) => !MayRequestAssignee(t.role, t.actor, assignee)
    case EditTask(id, _) => HasTask(st, t.ws, id) && !CanEditTask(t.role, t.actor, st.tasks[id].creatorId)
    case DeleteTask(id) => HasTask(st, t.ws, id) && !CanDeleteTask(t.role, t.actor, st.tasks[id].creatorId)
    case _ => false
  }

  /** No rows could make the policy permit it, or the target's role does not. */
  predicate MemberForbidden(st: Store, t: Txn) {
    match t.op
    case AddMember(_, role) => !CanAddMember(t.role, role)
    case RemoveMember(_) => forall target :: !CanRemoveMember(t.role, target)
    case UpdateRole(user, role) =>
      || t.role != Owner
      || (IsMember(st, t.ws, user) && !CanUpdateMemberRole(t.role, st.members[MemberKey(t.ws, user)].role, role))
    case _ => false
  }

  /** The row that an UPDATE without a locking read addresses is gone. */
  predicate RowVanished(st: Store, op: Op, ws: WorkspaceId) {
    match op
    case EditTask(id, _) => id !in st.tasks
    case UpdateRole(user, _) => !IsMember(st, ws, user)
    case _ => false
  }

  predicate RefusesWith(n: Txn, error: Error) {
    n.phase == Finished(Aborted(error))
  }

  predicate RoleIfBegun(st: Store, t: Txn, n: Txn, error: Error) {
    t.phase.Begin? && ForWorkspace(t.op) && error != WorkspaceNotFound ==>
      n.ws == t.ws && n.actor == t.actor
      && IsMember(st, t.ws, t.actor) && n.role == st.members[MemberKey(t.ws, t.actor)].role
  }

  /** If this move refuses, the refusal is true. */
  predicate RefusesTruly(st: Store, t: Txn, m: Move, error: Error) {
    match m
    case Continue(n) => RefusesWith(n, error) ==> RefusedOn(st, n, error) && RoleIfBegun(st, t, n, error)
    case Take(_, n) => !RefusesWith(n, error)
    case Pass(_, n) => RefusesWith(n, error) ==> RefusedOn(st, n, error) && RoleIfBegun(st, t, n, error)
    case _ => true
  }

  lemma AccessRefusal(st: Store, t: Txn, error: Error)
    requires t.phase.Begin?
    ensures RefusesTruly(st, t, NextMove(st, t), error)
  {
    var n := Access(st, t);
    if ForWorkspace(t.op) && IsMember(st, t.ws, t.actor) {
      var entered := t.(role := st.members[MemberKey(t.ws, t.actor)].role);
      assert n == WorkspaceAccess(st, entered);
      EntryRefusal(st, entered, error);
    }
  }

  lemma EntryRefusal(st: Store, t: Txn, error: Error)
    requires t.phase.Begin? && ForWorkspace(t.op)
    ensures var n := WorkspaceAccess(st, t);
            (RefusesWith(n, error) ==> RefusedOn(st, n, error))
            && n.ws == t.ws && n.actor == t.actor && n.op == t.op && n.role == t.role
  {
  }

  lemma TargetRefusal(st: Store, t: Txn, error: Error)
    requires t.phase.ReadTarget?
    ensures RefusesTruly(st, t, NextMove(st, t), error)
  {
  }

  lemma WriteRefusal(st: Store, revived: set<TaskId>, t: Txn, error: Error)
    requires TxnOk(st, revived, t) && t.phase.Writing?
    ensures RefusesTruly(st, t, NextMove(st, t), error)
  {
  }

  lemma LockRefusal(st: Store, t: Txn, error: Error)
    requires !DecidesOnLockedRows(t) && (t.phase.Locking? || t.phase.Scanning?)
    ensures RefusesTruly(st, t, NextMove(st, t), error)
  {
  }

  lemma CommitRefusal(st: Store, revived: set<TaskId>, t: Txn, error: Error)
    requires TxnOk(st, revived, t) && t.phase.Committing?
    ensures RefusesTruly(st, t, NextMove(st, t), error)
  {
  }

  lemma MoveRefusal(st: Store, revived: set<TaskId>, t: Txn, error: Error)
    requires TxnOk(st, revived, t) && !DecidesOnLockedRows(t)
    ensures RefusesTruly(st, t, NextMove(st, t), error)
  {
    match t.phase
    case Begin => AccessRefusal(st, t, error);
    case ReadTarget => TargetRefusal(st, t, error);
    case Writing(_) => WriteRefusal(st, revived, t, error);
    case Committing(_) => CommitRefusal(st, revived, t, error);
    case Locking(_) => LockRefusal(st, t, error);
    case Scanning(_) => LockRefusal(st, t, error);
    case _ =>
  }

  /** Every other refusal by a step of its own is true of the committed rows at that moment. */
  lemma UnlockedRefusal(s: State, e: Event, error: Error)
    requires Inv(s) && Enabled(s, e) && e.Run? && !DecidesOnLockedRows(s.txns[e.i])
    requires RefusesWith(Fire(s, e).txns[e.i], error)
    ensures RefusedOn(s.store, Fire(s, e).txns[e.i], error)
    ensures s.txns[e.i].phase.Begin? && ForWorkspace(s.txns[e.i].op) && error != WorkspaceNotFound ==>
              ReadsRole(s, e.i, Fire(s, e).txns[e.i])
  {
    assert TxnOk(s.store, s.revived, s.txns[e.i]);
    MoveRefusal(s.store, s.revived, s.txns[e.i], error);
  }

  /** And the access role it goes by was committed when the access dependency ran, at that moment or earlier. */
  lemma UnlockedRefusalsAreJustified(states: seq<State>, events: seq<Event>, k: nat, error: Error)
    requires IsRun(states, events) && Initial(states[0]) && k < |events|
    requires events[k].Run? && !DecidesOnLockedRows(states[k].txns[events[k].i])
    requires RefusesWith(states[k + 1].txns[events[k].i], error)
    ensures var i := events[k].i;
            var n := states[k + 1].txns[i];
            && RefusedOn(states[k].store, n, error)
            && (ForWorkspace(n.op) && error != WorkspaceNotFound ==>
                  exists j: nat :: j <= k && ReadsRole(states[j], i, n))
  {
    var i := events[k].i;
    InitialKeepsInv(states[0]);
    RunKeepsInv(states, events, k);
    UnlockedRefusal(states[k], events[k], error);
    FireKeepsRequests(states[k], events[k]);
    if Underway(states[k].txns[i]) { var j := RoleWasRead(states, events, k, i); }
  }
}
