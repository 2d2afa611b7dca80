/** The concurrent protocol: any number of requests run as small steps over one committed store and one table of
    exclusive row locks. A transaction's own next step is a function of the committed rows it reads, so the only
    nondeterminism is the scheduler (which transaction moves, or which one the database makes fail). */
module Protocol {
  import opened Wrappers
  import opened Policies
  import opened Schema
  import opened Transactions

  datatype Resource = MemberLock(key: MemberKey) | TaskLock(id: TaskId)

  datatype Result = Committed(changed: bool) | Aborted(error: Error)

  datatype Phase =
    | Begin                            // request accepted, nothing read
    | ReadTarget                       // unlocked read of the target user or membership
    | Locking(todo: seq<UserId>)       // membership rows still to be locked, in ascending user id
    | LockingTask                      // next: lock and re-read the task row
    | Deciding                         // all locked rows read
    | Scanning(cursor: TaskId)         // bulk unassign: rows below the cursor were visited
    | Writing(plan: Write)             // no FOR UPDATE: the write itself waits for the row lock
    | Committing(write: Write)         // private writes complete
    | Finished(result: Result)

  /** One request. `role` is the actor's role from the access snapshot, `seen` the roles read under membership
      locks, `row` the task read under its lock, `cleared` the rows of the bulk unassign so far. */
  datatype Txn = Txn(
    ws: WorkspaceId, actor: UserId, op: Op, phase: Phase,
    role: Role, seen: map<UserId, Role>, row: Option<Task>, cleared: set<TaskId>)

  /** `revived` is bookkeeping for the proofs: the unfinished tasks that were reopened for a user who had left or was
      being removed, and who has not been a settled member since. No request reads it. */
  datatype State = State(store: Store, locks: map<Resource, nat>, txns: seq<Txn>, revived: set<TaskId>)

  datatype Event = Run(i: nat, now: Time) | Fail(i: nat)

  /** What a transaction does next. `Take` waits for a row lock and keeps it; `Pass` waits for it but finds no row. */
  datatype Move =
    | Continue(next: Txn)
    | Take(wait: Resource, next: Txn)
    | Pass(wait: Resource, next: Txn)
    | Commit(write: Write)
    | Rest

  function Request(ws: WorkspaceId, actor: UserId, op: Op): Txn {
    Txn(ws, actor, op, Begin, Member, map[], None, {})
  }

  function Finish(t: Txn, result: Result): Txn {
    t.(phase := Finished(result), seen := map[], row := None, cleared := {})
  }

  function Abort(t: Txn, error: Error): Txn {
    Finish(t, Aborted(error))
  }

  /** Membership rows are locked in one ascending order. */
  function LockOrder(actor: UserId, target: Option<UserId>): seq<UserId> {
    if target.None? || target.value == actor then [actor]
    else if target.value < actor then [target.value, actor]
    else [actor, target.value]
  }

  // ---------------------------------------------------------------- the steps of one transaction

  /** The access dependency: one unlocked, consistent read of membership, role gate and task. */
  function Access(st: Store, t: Txn): Txn {
    match t.op
    case CreateWorkspace(name) =>
      if t.actor in st.users then t.(phase := Committing(WorkspaceInsert(name))) else Abort(t, InvalidToken)
    case Register(username) =>
      if username in st.users.Values then Abort(t, UsernameTaken) else t.(phase := Committing(UserInsert(username)))
    case _ =>
      if !IsMember(st, t.ws, t.actor) then Abort(t, WorkspaceNotFound)
      else WorkspaceAccess(st, t.(role := st.members[MemberKey(t.ws, t.actor)].role))
  }

  function WorkspaceAccess(st: Store, t: Txn): Txn {
    match t.op
    case SetStatus(id, _) =>
      if !HasTask(st, t.ws, id) then Abort(t, TaskNotFound) else t.(phase := Locking([t.actor]))
    case SetAssignee(id, assignee) =>
      if !HasTask(st, t.ws, id) then Abort(t, TaskNotFound)
      else if !MayRequestAssignee(t.role, t.actor, assignee) then Abort(t, TaskPermissionDenied)
      else t.(phase := Locking(LockOrder(t.actor, assignee)))
    case RemoveMember(user) =>
      if !IsManager(t.role) then Abort(t, WorkspacePermissionDenied) else t.(phase := Locking([user]))
    case AddMember(_, role) =>
      if !IsManager(t.role) || !CanAddMember(t.role, role) then Abort(t, WorkspacePermissionDenied)
      else t.(phase := ReadTarget)
    case UpdateRole(_, _) =>
      if t.role != Owner then Abort(t, WorkspacePermissionDenied) else t.(phase := ReadTarget)
    case EditTask(id, edit) =>
      if !HasTask(st, t.ws, id) then Abort(t, TaskNotFound)
      else if !CanEditTask(t.role, t.actor, st.tasks[id].creatorId) then Abort(t, TaskPermissionDenied)
      else
        var columns := ChangedColumns(st.tasks[id], edit);
        if columns == TaskEdit(None, None, None) then t.(phase := Committing(NoWrite))
        else t.(phase := Writing(EditWrite(id, columns)))
    case DeleteTask(id) =>
      if !HasTask(st, t.ws, id) then Abort(t, TaskNotFound)
      else if !CanDeleteTask(t.role, t.actor, st.tasks[id].creatorId) then Abort(t, TaskPermissionDenied)
      else t.(phase := Writing(DeleteWrite(id)))
    case CreateTask(title, description, priority) =>
      t.(phase := Committing(TaskInsert(title, description, priority)))
    case _ => t
  }

  function TargetRead(st: Store, t: Txn): Txn {
    match t.op
    case AddMember(user, role) =>
      if user !in st.users then Abort(t, UserNotFound)
      else if IsMember(st, t.ws, user) then Abort(t, AlreadyMember)
      else t.(phase := Writing(MemberWrite(user, role)))
    case UpdateRole(user, role) =>
      if !IsMember(st, t.ws, user) then Abort(t, MemberNotFound)
      else
        var target := st.members[MemberKey(t.ws, user)].role;
        if target == Owner then Abort(t, OwnerConflict)
        else if !CanUpdateMemberRole(t.role, target, role) then Abort(t, WorkspacePermissionDenied)
        else t.(phase := if target == role then Committing(NoWrite) else Writing(RoleWrite(user, role)))
    case _ => t
  }

  /** The locking read of one membership row. A missing row leaves nothing to lock. */
  function LockMember(st: Store, t: Txn, user: UserId, rest: seq<UserId>): Move {
    var key := MemberKey(t.ws, user);
    if key in st.members then
      Take(MemberLock(key), t.(phase := Locking(rest), seen := t.seen[user := st.members[key].role]))
    else
      Pass(MemberLock(key), t.(phase := Locking(rest)))
  }

  /** Checks on the locked memberships, before any task row is locked. */
  function MembershipsLocked(t: Txn): Txn {
    match t.op
    case SetStatus(_, _) =>
      if t.actor !in t.seen then Abort(t, WorkspaceNotFound) else t.(phase := LockingTask)
    case SetAssignee(_, assignee) =>
      if t.actor !in t.seen then Abort(t, WorkspaceNotFound)
      else if !MayRequestAssignee(t.seen[t.actor], t.actor, assignee) then Abort(t, TaskPermissionDenied)
      else t.(phase := LockingTask)
    case RemoveMember(user) =>
      if user !in t.seen then Abort(t, MemberNotFound)
      else
        var role := RemoverRole(t.actor, t.role, user, t.seen[user]);
        if t.seen[user] == Owner then Abort(t, if role == Owner then OwnerConflict else WorkspacePermissionDenied)
        else if !CanRemoveMember(role, t.seen[user]) then Abort(t, WorkspacePermissionDenied)
        else t.(phase := Scanning(0))
    case _ => t
  }

  function TaskOf(op: Op): Option<TaskId> {
    match op
    case SetStatus(id, _) => Some(id)
    case SetAssignee(id, _) => Some(id)
    case _ => None
  }

  /** The locking read of the task row, filtered by id and workspace. */
  function LockTask(st: Store, t: Txn): Move {
    match TaskOf(t.op)
    case Some(id) =>
      if HasTask(st, t.ws, id) then Take(TaskLock(id), t.(phase := Deciding, row := Some(st.tasks[id])))
      else Pass(TaskLock(id), Abort(t, TaskNotFound))
    case None => Rest
  }

  /** The decision is taken on the rows read under lock, not on the committed store. */
  function LockedDecision(t: Txn): Decision {
    if t.row.None? || t.actor !in t.seen then Reject(DatabaseError)
    else match t.op
      case SetStatus(_, status) => StatusDecision(t.seen[t.actor], t.actor, t.row.value, status)
      case SetAssignee(_, assignee) =>
        AssigneeDecision(t.seen[t.actor], t.actor, t.row.value, assignee, assignee.Some? && assignee.value in t.seen)
      case _ => Reject(DatabaseError)
  }

  function Decide(t: Txn): Txn {
    match LockedDecision(t)
    case Reject(error) => Abort(t, error)
    case Keep => t.(phase := Committing(NoWrite))
    case Change =>
      match t.op
      case SetStatus(id, status) => t.(phase := Committing(StatusWrite(id, status)))
      case SetAssignee(id, assignee) => t.(phase := Committing(AssigneeWrite(id, assignee)))
      case _ => Abort(t, DatabaseError)
  }

  /** The bulk unassign visits the rows it selects in ascending id, locking each. Other rows are not locked. */
  function Scan(st: Store, t: Txn, cursor: TaskId): Move {
    match t.op
    case RemoveMember(user) =>
      (match LeastFrom(OpenWork(st, t.ws, user), cursor)
       case None => Continue(t.(phase := Committing(RemovalWrite(user, t.cleared))))
       case Some(id) => Take(TaskLock(id), t.(phase := Scanning(id + 1), cleared := t.cleared + {id})))
    case _ => Rest
  }

  /** A write without a preceding locking read. */
  function LockForWrite(st: Store, t: Txn, w: Write): Move {
    match w
    case MemberWrite(user, _) =>
      var lock := MemberLock(MemberKey(t.ws, user));
      if IsMember(st, t.ws, user) then Pass(lock, Abort(t, AlreadyMember)) else Take(lock, t.(phase := Committing(w)))
    case RoleWrite(user, _) =>
      var lock := MemberLock(MemberKey(t.ws, user));
      if IsMember(st, t.ws, user) then Take(lock, t.(phase := Committing(w))) else Pass(lock, Abort(t, DatabaseError))
    case EditWrite(id, _) =>
      if id in st.tasks then Take(TaskLock(id), t.(phase := Committing(w)))
      else Pass(TaskLock(id), Abort(t, DatabaseError))
    case DeleteWrite(id) =>
      if id in st.tasks then Take(TaskLock(id), t.(phase := Committing(w)))
      else Pass(TaskLock(id), t.(phase := Committing(NoWrite)))
    case _ => Rest
  }

  function NextMove(st: Store, t: Txn): Move {
    match t.phase
    case Begin => Continue(Access(st, t))
    case ReadTarget => Continue(TargetRead(st, t))
    case Locking(todo) =>
      if todo == [] then Continue(MembershipsLocked(t)) else LockMember(st, t, todo[0], todo[1..])
    case LockingTask => LockTask(st, t)
    case Deciding => Continue(Decide(t))
    case Scanning(cursor) => Scan(st, t, cursor)
    case Writing(w) => LockForWrite(st, t, w)
    case Committing(w) =>
      if w.UserInsert? && w.username in st.users.Values then Continue(Abort(t, UsernameTaken)) else Commit(w)
    case Finished(_) => Rest
  }

  // ---------------------------------------------------------------- global steps

  predicate Free(locks: map<Resource, nat>, i: nat, r: Resource) {
    r in locks ==> locks[r] == i
  }

  predicate Enabled(s: State, e: Event) {
    && e.i < |s.txns|
    && !s.txns[e.i].phase.Finished?
    && (e.Fail? || match NextMove(s.store, s.txns[e.i])
                   case Take(r, _) => Free(s.locks, e.i, r)
                   case Pass(r, _) => Free(s.locks, e.i, r)
                   case Rest => false
                   case _ => true)
  }

  function Released(locks: map<Resource, nat>, i: nat): map<Resource, nat> {
    map r | r in locks && locks[r] != i :: locks[r]
  }

  /** Store a transaction's new state; commit and rollback both release its locks. */
  function Install(s: State, i: nat, t: Txn): State
    requires i < |s.txns|
  {
    if t.phase.Finished? then s.(txns := s.txns[i := t], locks := Released(s.locks, i))
    else s.(txns := s.txns[i := t])
  }

  /** A removal in progress holds the membership row. */
  predicate Leaving(s: State, key: MemberKey) {
    var r := MemberLock(key);
    r in s.locks && s.locks[r] < |s.txns| && s.txns[s.locks[r]].op.RemoveMember?
  }

  /** Unfinished work of somebody who is not a settled member: no member at all, or about to leave. */
  predicate Unsettled(s: State, id: TaskId) {
    && id in s.store.tasks
    && var task := s.store.tasks[id];
       && task.status != Done
       && task.assigneeId.Some?
       && var key := MemberKey(task.workspaceId, task.assigneeId.value);
          key !in s.store.members || Leaving(s, key)
  }

  predicate Reopens(st: Store, w: Write, id: TaskId) {
    w.StatusWrite? && w.id == id && w.status != Done && id in st.tasks && st.tasks[id].status == Done
  }

  /** A flag is set by reopening and lasts only as long as the work is unsettled. */
  function Flag(s: State, w: Write, next: State): State {
    next.(revived := set id | id in next.store.tasks && Unsettled(next, id)
                              && (id in s.revived || Reopens(s.store, w, id)))
  }

  function CommitState(s: State, i: nat, w: Write, now: Time): State
    requires i < |s.txns|
  {
    var t := s.txns[i];
    Flag(s, w, Install(s.(store := Apply(s.store, t.ws, t.actor, w, now)), i, Finish(t, Committed(w != NoWrite))))
  }

  /** A step that commits nothing: the mover's new state, and the row lock it gained. */
  function StepState(s: State, i: nat, t: Txn, gained: Option<Resource>): State
    requires i < |s.txns|
  {
    Flag(s, NoWrite, Install(s.(locks := Granted(s.locks, gained, i)), i, t))
  }

  function Granted(locks: map<Resource, nat>, gained: Option<Resource>, i: nat): map<Resource, nat> {
    if gained.Some? then locks[gained.value := i] else locks
  }

  function Fire(s: State, e: Event): State
    requires Enabled(s, e)
  {
    match e
    case Fail(i) => StepState(s, i, Abort(s.txns[i], DatabaseError), None)
    case Run(i, now) =>
      match NextMove(s.store, s.txns[i])
      case Continue(t) => StepState(s, i, t, None)
      case Take(r, t) => StepState(s, i, t, Some(r))
      case Pass(_, t) => StepState(s, i, t, None)
      case Commit(w) => CommitState(s, i, w, now)
  }

  /** The write this event commits, if it is a commit. */
  function CommitOf(s: State, e: Event): Option<Write>
    requires Enabled(s, e)
  {
    if e.Fail? then None
    else match NextMove(s.store, s.txns[e.i])
      case Commit(w) => Some(w)
      case _ => None
  }

  /** A run: consecutive states, each reached from the previous one by the scheduled event. */
  ghost predicate IsRun(states: seq<State>, events: seq<Event>) {
    && |states| == |events| + 1
    && forall k :: 0 <= k < |events| ==> Enabled(states[k], events[k]) && states[k + 1] == Fire(states[k], events[k])
  }

  /** No request has started and no lock is held. */
  ghost predicate Initial(s: State) {
    Consistent(s.store) && NothingStarted(s)
  }

  ghost predicate NothingStarted(s: State) {
    && s.locks == map[]
    && s.revived == {}
    && forall i :: 0 <= i < |s.txns| ==> s.txns[i] == Request(s.txns[i].ws, s.txns[i].actor, s.txns[i].op)
  }
}
