/** The inductive invariant of the protocol and the proof that every event keeps it. */
module ProtocolInvariant {
  import opened Wrappers
  import opened Policies
  import opened Schema
  import opened Transactions
  import opened Protocol

  predicate ForWorkspace(op: Op) {
    !op.CreateWorkspace? && !op.Register?
  }

  /** The row locks a transaction holds, read off its own state. */
  predicate Holds(t: Txn, r: Resource) {
    match r
    case MemberLock(key) =>
      key.workspaceId == t.ws && (key.userId in t.seen || WritesMember(t.phase, key.userId))
    case TaskLock(id) =>
      (t.row.Some? && TaskOf(t.op) == Some(id)) || id in t.cleared || WritesTask(t.phase, id)
  }

  predicate WritesMember(phase: Phase, user: UserId) {
    phase.Committing? && (phase.write.MemberWrite? || phase.write.RoleWrite?) && phase.write.user == user
  }

  predicate WritesTask(phase: Phase, id: TaskId) {
    phase.Committing? && (phase.write.EditWrite? || phase.write.DeleteWrite?) && phase.write.id == id
  }

  /** The lock table is exactly what the transactions hold; being a map, it makes holders unique. */
  ghost predicate LocksOk(s: State) {
    && (forall r :: r in s.locks ==> s.locks[r] < |s.txns| && Holds(s.txns[s.locks[r]], r))
    && (forall i, r :: 0 <= i < |s.txns| && Holds(s.txns[i], r) ==> r in s.locks && s.locks[r] == i)
  }

  predicate NoRows(t: Txn) {
    t.seen == map[] && t.row.None? && t.cleared == {}
  }

  predicate Ascending(users: seq<UserId>) {
    forall a, b :: 0 <= a < b < |users| ==> users[a] < users[b]
  }

  /** Which membership rows the locking read of this request may touch. */
  predicate Locks(t: Txn, user: UserId) {
    match t.op
    case SetStatus(_, _) => user == t.actor
    case SetAssignee(_, assignee) => user == t.actor || assignee == Some(user)
    case RemoveMember(target) => user == target
    case _ => false
  }

  /** Everything read under a lock is still what is committed. */
  ghost predicate ReadsCurrent(st: Store, t: Txn) {
    && (forall u :: u in t.seen ==>
          IsMember(st, t.ws, u) && st.members[MemberKey(t.ws, u)].role == t.seen[u] && Locks(t, u))
    && (t.row.Some? ==>
          && TaskOf(t.op).Some?
          && HasTask(st, t.ws, TaskOf(t.op).value)
          && st.tasks[TaskOf(t.op).value] == t.row.value)
    && (t.cleared != {} ==> t.op.RemoveMember?)
    && (t.op.RemoveMember? ==> t.cleared <= OpenWork(st, t.ws, t.op.user))
  }

  /** An OWNER snapshot cannot go stale: the row is still there, still OWNER. */
  ghost predicate OwnerSnapshotCurrent(st: Store, t: Txn) {
    t.role == Owner && ForWorkspace(t.op) ==> OwnsWorkspace(st, t.ws, t.actor)
  }

  predicate OwnsWorkspace(st: Store, ws: WorkspaceId, user: UserId) {
    IsMember(st, ws, user) && st.members[MemberKey(ws, user)].role == Owner
  }

  predicate RemovalAllowed(t: Txn) {
    && t.op.RemoveMember? && t.row.None? && t.op.user in t.seen
    && CanRemoveMember(RemoverRole(t.actor, t.role, t.op.user, t.seen[t.op.user]), t.seen[t.op.user])
  }

  /** Below the cursor every row the removal must clear is cleared, or was reopened behind the scan. */
  ghost predicate Visited(st: Store, revived: set<TaskId>, t: Txn, below: TaskId)
    requires t.op.RemoveMember?
  {
    forall id :: id in OpenWork(st, t.ws, t.op.user) && id < below ==> id in t.cleared || id in revived
  }

  ghost predicate WriteReady(st: Store, revived: set<TaskId>, t: Txn, w: Write) {
    match w
    case NoWrite =>
      if TaskOf(t.op).Some? then LockedDecision(t) == Keep
      else t.op.UpdateRole? || t.op.EditTask?
           || (t.op.DeleteTask? && t.op.taskId < st.nextTaskId && t.op.taskId !in st.tasks)
    case StatusWrite(id, status) => t.op == SetStatus(id, status) && LockedDecision(t) == Change
    case AssigneeWrite(id, assignee) => t.op == SetAssignee(id, assignee) && LockedDecision(t) == Change
    case RemovalWrite(user, cleared) =>
      t.op == RemoveMember(user) && cleared == t.cleared && RemovalAllowed(t) && Visited(st, revived, t, st.nextTaskId)
    case MemberWrite(user, role) =>
      t.op == AddMember(user, role) && !IsMember(st, t.ws, user) && user in st.users && CanAddMember(t.role, role)
    case RoleWrite(user, role) =>
      t.op == UpdateRole(user, role) && IsMember(st, t.ws, user)
      && CanUpdateMemberRole(t.role, st.members[MemberKey(t.ws, user)].role, role)
    case EditWrite(id, columns) =>
      t.op.EditTask? && t.op.taskId == id && PartOf(columns, t.op.edit) && columns != TaskEdit(None, None, None)
      && HasTask(st, t.ws, id) && CanEditTask(t.role, t.actor, st.tasks[id].creatorId)
    case DeleteWrite(id) =>
      t.op == DeleteTask(id) && HasTask(st, t.ws, id) && CanDeleteTask(t.role, t.actor, st.tasks[id].creatorId)
    case TaskInsert(title, description, priority) =>
      t.op == CreateTask(title, description, priority) && t.actor in st.users
    case WorkspaceInsert(name) => t.op == CreateWorkspace(name) && t.actor in st.users
    case UserInsert(username) => t.op == Register(username)
  }

  /** A planned write that still waits for its row lock: only facts no other transaction can destroy. */
  ghost predicate PlanReady(st: Store, t: Txn, w: Write) {
    match w
    case MemberWrite(user, role) => t.op == AddMember(user, role) && user in st.users && CanAddMember(t.role, role)
    case RoleWrite(user, role) =>
      t.op == UpdateRole(user, role) && t.role == Owner && role != Owner && !OwnsWorkspace(st, t.ws, user)
    case EditWrite(id, columns) =>
      t.op.EditTask? && t.op.taskId == id && PartOf(columns, t.op.edit) && columns != TaskEdit(None, None, None)
      && id < st.nextTaskId
      && (id in st.tasks ==> HasTask(st, t.ws, id) && CanEditTask(t.role, t.actor, st.tasks[id].creatorId))
    case DeleteWrite(id) =>
      t.op == DeleteTask(id) && id < st.nextTaskId
      && (id in st.tasks ==> HasTask(st, t.ws, id) && CanDeleteTask(t.role, t.actor, st.tasks[id].creatorId))
    case _ => false
  }

  predicate ActorLocked(t: Txn) {
    && TaskOf(t.op).Some?
    && t.cleared == {}
    && t.actor in t.seen
    && (t.op.SetAssignee? ==> MayRequestAssignee(t.seen[t.actor], t.actor, t.op.assignee))
  }

  /** Rows are requested in ascending user id, and everything locked so far lies below. */
  ghost predicate LockingOk(t: Txn, todo: seq<UserId>) {
    && (TaskOf(t.op).Some? || t.op.RemoveMember?)
    && t.row.None? && t.cleared == {}
    && Ascending(todo)
    && (forall k :: 0 <= k < |todo| ==> Locks(t, todo[k]))
    && (forall u, k :: u in t.seen && 0 <= k < |todo| ==> u < todo[k])
  }

  ghost predicate PhaseOk(st: Store, revived: set<TaskId>, t: Txn) {
    match t.phase
    case ReadTarget =>
      && NoRows(t)
      && (match t.op
          case AddMember(_, role) => CanAddMember(t.role, role)
          case UpdateRole(_, _) => t.role == Owner
          case _ => false)
    case Locking(todo) => LockingOk(t, todo)
    case LockingTask => ActorLocked(t) && t.row.None?
    case Deciding => ActorLocked(t) && t.row.Some?
    case Scanning(cursor) =>
      && RemovalAllowed(t) && Visited(st, revived, t, cursor) && cursor <= st.nextTaskId
      && (forall id :: id in t.cleared ==> id < cursor)
    case Writing(w) => NoRows(t) && PlanReady(st, t, w)
    case Committing(w) =>
      && WriteReady(st, revived, t, w)
      && (if w.RemovalWrite? then true else if TaskOf(t.op).Some? then ActorLocked(t) && t.row.Some? else NoRows(t))
    case _ => true
  }

  ghost predicate TxnOk(st: Store, revived: set<TaskId>, t: Txn) {
    if t.phase.Begin? || t.phase.Finished? then NoRows(t)
    else
      && (ForWorkspace(t.op) ==> t.ws in st.workspaces && t.actor in st.users)
      && ReadsCurrent(st, t)
      && OwnerSnapshotCurrent(st, t)
      && PhaseOk(st, revived, t)
  }

  ghost predicate Inv(s: State) {
    && Consistent(s.store)
    && LocksOk(s)
    && (forall i :: 0 <= i < |s.txns| ==> TxnOk(s.store, s.revived, s.txns[i]))
  }

  lemma InitialKeepsInv(s: State)
    requires Initial(s)
    ensures Inv(s)
  {
    forall i | 0 <= i < |s.txns|
      ensures NoRows(s.txns[i])
    {
      assert s.txns[i] == Request(s.txns[i].ws, s.txns[i].actor, s.txns[i].op);
    }
  }

  // ---------------------------------------------------------------- steps that only change the moving transaction

  /** A step that changes neither the rows read nor a row being written changes no lock. */
  lemma SameRowsSameLocks(t: Txn, n: Txn)
    requires n == t.(phase := n.phase)
    requires !t.phase.Committing?
    requires n.phase.Committing? ==>
               && !n.phase.write.MemberWrite? && !n.phase.write.RoleWrite?
               && !n.phase.write.EditWrite? && !n.phase.write.DeleteWrite?
    ensures forall r :: Holds(n, r) <==> Holds(t, r)
  {
  }

  /** The state right after the access dependency: nothing is locked yet. */
  ghost predicate JustStarted(st: Store, revived: set<TaskId>, n: Txn) {
    TxnOk(st, revived, n) && forall r :: !Holds(n, r)
  }

  lemma AccessOk(st: Store, revived: set<TaskId>, t: Txn)
    requires Consistent(st) && t.phase.Begin? && NoRows(t)
    ensures JustStarted(st, revived, Access(st, t))
  {
    var n := Access(st, t);
    assert NoRows(n);
    if n.phase.Finished? {
    } else if !ForWorkspace(t.op) {
    } else {
      var key := MemberKey(t.ws, t.actor);
      assert key in st.members;
      var t1 := t.(role := st.members[key].role);
      assert n == WorkspaceAccess(st, t1);
      WorkspaceAccessOk(st, revived, t1);
    }
  }

  lemma WorkspaceAccessOk(st: Store, revived: set<TaskId>, t: Txn)
    requires Consistent(st) && t.phase.Begin? && NoRows(t) && ForWorkspace(t.op)
    requires t.ws in st.workspaces && t.actor in st.users && OwnerSnapshotCurrent(st, t)
    ensures JustStarted(st, revived, WorkspaceAccess(st, t))
  {
    var n := WorkspaceAccess(st, t);
    assert NoRows(n);
    if !n.phase.Finished? {
      assert n == t.(phase := n.phase);
      AccessPhaseOk(st, revived, t);
      SameRowsSameLocks(t, n);
      forall r ensures !Holds(t, r) { }
    }
  }

  lemma AccessPhaseOk(st: Store, revived: set<TaskId>, t: Txn)
    requires Consistent(st) && t.phase.Begin? && NoRows(t) && ForWorkspace(t.op) && t.actor in st.users
    ensures PhaseOk(st, revived, WorkspaceAccess(st, t))
  {
    match t.op
    case EditTask(id, edit) => if id in st.tasks { assert TaskConsistent(st, id); }
    case DeleteTask(id) => if id in st.tasks { assert TaskConsistent(st, id); }
    case _ =>
  }

  lemma TargetReadOk(st: Store, revived: set<TaskId>, t: Txn)
    requires Consistent(st) && t.phase.ReadTarget? && TxnOk(st, revived, t)
    ensures JustStarted(st, revived, TargetRead(st, t))
  {
  }

  lemma MembershipsLockedOk(st: Store, revived: set<TaskId>, t: Txn)
    requires Consistent(st) && t.phase == Locking([]) && TxnOk(st, revived, t)
    ensures var n := MembershipsLocked(t);
            TxnOk(st, revived, n) && (!n.phase.Finished? ==> forall r :: Holds(n, r) <==> Holds(t, r))
  {
    var n := MembershipsLocked(t);
    if !n.phase.Finished? {
      SameRowsSameLocks(t, n);
      assert ReadsCurrent(st, n) && OwnerSnapshotCurrent(st, n);
      assert PhaseOk(st, revived, n);
    }
  }

  lemma DecideOk(st: Store, revived: set<TaskId>, t: Txn)
    requires Consistent(st) && t.phase.Deciding? && TxnOk(st, revived, t)
    ensures var n := Decide(t);
            TxnOk(st, revived, n) && (!n.phase.Finished? ==> forall r :: Holds(n, r) <==> Holds(t, r))
  {
    var n := Decide(t);
    if !n.phase.Finished? {
      SameRowsSameLocks(t, n);
      assert ReadsCurrent(st, n) && OwnerSnapshotCurrent(st, n);
      assert LockedDecision(n) == LockedDecision(t);
      assert PhaseOk(st, revived, n);
    }
  }

  /** What a lock-acquiring step does to the mover: it is well formed and holds exactly one row more. */
  ghost predicate Acquires(st: Store, revived: set<TaskId>, t: Txn, m: Move) {
    match m
    case Take(lock, n) =>
      TxnOk(st, revived, n) && !n.phase.Finished? && forall r :: Holds(n, r) <==> Holds(t, r) || r == lock
    case Pass(_, n) => TxnOk(st, revived, n) && (!n.phase.Finished? ==> forall r :: Holds(n, r) <==> Holds(t, r))
    case Continue(n) => TxnOk(st, revived, n) && (!n.phase.Finished? ==> forall r :: Holds(n, r) <==> Holds(t, r))
    case _ => true
  }

  lemma LockingShrinks(t: Txn, todo: seq<UserId>, n: Txn)
    requires LockingOk(t, todo) && todo != []
    requires n.op == t.op && n.actor == t.actor && n.row == t.row && n.cleared == t.cleared
    requires n.seen.Keys <= t.seen.Keys + {todo[0]}
    ensures LockingOk(n, todo[1..])
  {
    var rest := todo[1..];
    assert forall k :: 0 <= k < |rest| ==> rest[k] == todo[k + 1];
    forall k | 0 <= k < |rest| ensures Locks(n, rest[k]) { assert Locks(t, todo[k + 1]); }
  }

  lemma LockMemberOk(st: Store, revived: set<TaskId>, t: Txn, todo: seq<UserId>)
    requires t.phase == Locking(todo) && todo != [] && TxnOk(st, revived, t)
    ensures Acquires(st, revived, t, LockMember(st, t, todo[0], todo[1..]))
  {
    var m := LockMember(st, t, todo[0], todo[1..]);
    LockingShrinks(t, todo, m.next);
    assert Locks(t, todo[0]);
  }

  lemma LockTaskOk(st: Store, revived: set<TaskId>, t: Txn)
    requires Consistent(st) && t.phase.LockingTask? && TxnOk(st, revived, t)
    ensures Acquires(st, revived, t, LockTask(st, t))
  {
  }

  lemma ScanOk(st: Store, revived: set<TaskId>, t: Txn)
    requires Consistent(st) && t.phase.Scanning? && TxnOk(st, revived, t)
    ensures Acquires(st, revived, t, Scan(st, t, t.phase.cursor))
  {
    match LeastFrom(OpenWork(st, t.ws, t.op.user), t.phase.cursor)
    case None =>
      var n := t.(phase := Committing(RemovalWrite(t.op.user, t.cleared)));
      SameRowsSameLocks(t, n);
      assert Visited(st, revived, n, st.nextTaskId);
    case Some(id) =>
      assert TaskConsistent(st, id);
      ScanTakesRow(st, revived, t, id);
  }

  lemma ScanTakesRow(st: Store, revived: set<TaskId>, t: Txn, id: TaskId)
    requires t.phase.Scanning? && TxnOk(st, revived, t) && t.phase.cursor <= id < st.nextTaskId
    requires id in OpenWork(st, t.ws, t.op.user)
    requires forall x :: x in OpenWork(st, t.ws, t.op.user) && t.phase.cursor <= x ==> id <= x
    ensures Acquires(st, revived, t, Take(TaskLock(id), t.(phase := Scanning(id + 1), cleared := t.cleared + {id})))
  {
    var n := t.(phase := Scanning(id + 1), cleared := t.cleared + {id});
    assert ReadsCurrent(st, n);
    assert Visited(st, revived, n, id + 1);
    assert RemovalAllowed(n);
  }

  lemma LockForWriteOk(st: Store, revived: set<TaskId>, t: Txn)
    requires Consistent(st) && t.phase.Writing? && TxnOk(st, revived, t)
    ensures Acquires(st, revived, t, LockForWrite(st, t, t.phase.plan))
  {
    var m := LockForWrite(st, t, t.phase.plan);
    if m.Take? {
      WriteTakesRow(st, t);
      PlanBecomesReady(st, revived, t);
      assert ReadsCurrent(st, m.next) && OwnerSnapshotCurrent(st, m.next);
    }
  }

  /** With its row locked, a planned write has every guard it needs. */
  lemma PlanBecomesReady(st: Store, revived: set<TaskId>, t: Txn)
    requires t.phase.Writing? && LockForWrite(st, t, t.phase.plan).Take? && PlanReady(st, t, t.phase.plan)
    ensures WriteReady(st, revived, LockForWrite(st, t, t.phase.plan).next, t.phase.plan)
  {
  }

  lemma WriteTakesRow(st: Store, t: Txn)
    requires t.phase.Writing? && NoRows(t) && LockForWrite(st, t, t.phase.plan).Take?
    ensures var m := LockForWrite(st, t, t.phase.plan);
            NoRows(m.next) && (forall r :: !Holds(t, r)) && forall r :: Holds(m.next, r) <==> r == m.wait
  {
    var m := LockForWrite(st, t, t.phase.plan);
    forall r ensures Holds(m.next, r) <==> r == m.wait {
      match r
      case MemberLock(_) =>
      case TaskLock(_) =>
    }
  }

  /** Every step that is not a commit leaves the mover well formed and changes its locks as the lock table does. */
  lemma MoveOk(st: Store, revived: set<TaskId>, t: Txn)
    requires Consistent(st) && TxnOk(st, revived, t)
    ensures Acquires(st, revived, t, NextMove(st, t))
  {
    match t.phase
    case Begin => AccessOk(st, revived, t);
    case ReadTarget => TargetReadOk(st, revived, t);
    case Locking(todo) =>
      if todo == [] { MembershipsLockedOk(st, revived, t); }
      else { LockMemberOk(st, revived, t, todo); }
    case LockingTask => LockTaskOk(st, revived, t);
    case Deciding => DecideOk(st, revived, t);
    case Scanning(_) => ScanOk(st, revived, t);
    case Writing(_) => LockForWriteOk(st, revived, t);
    case Committing(_) =>
    case Finished(_) =>
  }

  lemma FinishedHoldsNothing(t: Txn, r: Resource)
    requires t.phase.Finished? && NoRows(t)
    ensures !Holds(t, r)
  {
  }

  /** Row locks exclude each other. */
  lemma Exclusive(s: State, i: nat, j: nat, r: Resource)
    requires LocksOk(s) && i < |s.txns| && j < |s.txns| && i != j
    ensures !(Holds(s.txns[i], r) && Holds(s.txns[j], r))
  {
    var holder := if r in s.locks then s.locks[r] else |s.txns|;
    assert Holds(s.txns[i], r) ==> holder == i;
    assert Holds(s.txns[j], r) ==> holder == j;
  }

  /** The mover's new state holds what it held and what it gained, or nothing once it is finished. */
  ghost predicate LocksChange(s: State, i: nat, t: Txn, gained: Option<Resource>)
    requires i < |s.txns|
  {
    && (gained.Some? ==> Free(s.locks, i, gained.value))
    && (t.phase.Finished? ==> NoRows(t))
    && (!t.phase.Finished? ==> forall r :: Holds(t, r) <==> Holds(s.txns[i], r) || gained == Some(r))
  }

  lemma InstallLists(s: State, i: nat, t: Txn, gained: Option<Resource>, j: nat, r: Resource)
    requires i < |s.txns| && LocksOk(s) && LocksChange(s, i, t, gained) && j < |s.txns|
    ensures var s2 := Install(s.(locks := Granted(s.locks, gained, i)), i, t);
            Holds(s2.txns[j], r) ==> r in s2.locks && s2.locks[r] == j
  {
    if j == i {
      if t.phase.Finished? { FinishedHoldsNothing(t, r); }
    } else if Holds(s.txns[j], r) {
      assert r in s.locks && s.locks[r] == j;
    }
  }

  lemma InstallHeld(s: State, i: nat, t: Txn, gained: Option<Resource>, r: Resource)
    requires i < |s.txns| && LocksOk(s) && LocksChange(s, i, t, gained)
    ensures var s2 := Install(s.(locks := Granted(s.locks, gained, i)), i, t);
            r in s2.locks ==> s2.locks[r] < |s2.txns| && Holds(s2.txns[s2.locks[r]], r)
  {
    if gained != Some(r) && r in s.locks {
      assert s.locks[r] < |s.txns| && Holds(s.txns[s.locks[r]], r);
    }
  }

  lemma SameLocksOk(s: State, s': State)
    requires LocksOk(s) && s'.locks == s.locks && s'.txns == s.txns
    ensures LocksOk(s')
  {
  }

  /** Installing the mover's new state keeps the lock table exact. */
  lemma InstallOk(s: State, i: nat, t: Txn, gained: Option<Resource>)
    requires i < |s.txns| && LocksOk(s) && LocksChange(s, i, t, gained)
    ensures LocksOk(Install(s.(locks := Granted(s.locks, gained, i)), i, t))
  {
    var s2 := Install(s.(locks := Granted(s.locks, gained, i)), i, t);
    forall j, r | 0 <= j < |s2.txns| && Holds(s2.txns[j], r) ensures r in s2.locks && s2.locks[r] == j {
      InstallLists(s, i, t, gained, j, r);
    }
    forall r | r in s2.locks ensures s2.locks[r] < |s2.txns| && Holds(s2.txns[s2.locks[r]], r) {
      InstallHeld(s, i, t, gained, r);
    }
  }

  // ---------------------------------------------------------------- commits

  predicate SameMember(st: Store, st': Store, k: MemberKey) {
    (k in st.members <==> k in st'.members) && (k in st.members ==> st'.members[k] == st.members[k])
  }

  predicate SameTask(st: Store, st': Store, id: TaskId) {
    (id in st.tasks <==> id in st'.tasks) && (id in st.tasks ==> st'.tasks[id] == st.tasks[id])
  }

  /** What any commit may do: it touches only rows whose lock it holds, plus rows with new ids; it never changes who
      owns an existing workspace, a task's workspace or creator; and work appears on a user only under that user's
      membership lock or by reviving. */
  ghost predicate Footprint(st: Store, st': Store, a: Txn) {
    && st.users.Keys <= st'.users.Keys
    && st.workspaces.Keys <= st'.workspaces.Keys
    && st.nextTaskId <= st'.nextTaskId
    && (forall k: MemberKey :: k.workspaceId in st.workspaces && !Holds(a, MemberLock(k)) ==> SameMember(st, st', k))
    && (forall id: TaskId :: id < st.nextTaskId && !Holds(a, TaskLock(id)) ==> SameTask(st, st', id))
    && (forall ws, u :: ws in st.workspaces ==> (OwnsWorkspace(st, ws, u) <==> OwnsWorkspace(st', ws, u)))
    && (forall id: TaskId :: id < st.nextTaskId && id in st'.tasks ==> SameOrigin(st, st', id))
  }

  predicate SameOrigin(st: Store, st': Store, id: TaskId)
    requires id in st'.tasks
  {
    && id in st.tasks
    && st'.tasks[id].workspaceId == st.tasks[id].workspaceId
    && st'.tasks[id].creatorId == st.tasks[id].creatorId
  }

  /** New work on `u`, seen by a removal of `u` that holds the membership row, is always flagged. */
  ghost predicate WorkFlagged(st: Store, revived: set<TaskId>, st': Store, revived': set<TaskId>, ws: WorkspaceId,
                              u: UserId) {
    forall id :: id in OpenWork(st', ws, u) ==> id in revived' || (id in OpenWork(st, ws, u) && id !in revived)
  }

  lemma CommitFootprint(st: Store, revived: set<TaskId>, t: Txn, w: Write, now: Time)
    requires Consistent(st) && TxnOk(st, revived, t) && t.phase == Committing(w)
    ensures Footprint(st, Apply(st, t.ws, t.actor, w, now), t)
  {
    if w.StatusWrite? || w.AssigneeWrite? || w.EditWrite? || w.DeleteWrite? {
      TaskWriteFootprint(st, revived, t, w, now);
    } else if w.RemovalWrite? {
      RemovalFootprint(st, revived, t, w, now);
    } else if w.MemberWrite? || w.RoleWrite? {
      MemberWriteFootprint(st, revived, t, w, now);
    } else if w != NoWrite {
      InsertFootprint(st, t, w, now);
    }
  }

  lemma InsertFootprint(st: Store, t: Txn, w: Write, now: Time)
    requires Consistent(st) && (w.TaskInsert? || w.WorkspaceInsert? || w.UserInsert?)
    ensures Footprint(st, Apply(st, t.ws, t.actor, w, now), t)
  {
    if w.WorkspaceInsert? { WorkspaceInsertFootprint(st, t, w, now); }
  }

  lemma WorkspaceInsertFootprint(st: Store, t: Txn, w: Write, now: Time)
    requires Consistent(st) && w.WorkspaceInsert?
    ensures Footprint(st, Apply(st, t.ws, t.actor, w, now), t)
  {
    var st' := Apply(st, t.ws, t.actor, w, now);
    forall k: MemberKey | k.workspaceId in st.workspaces ensures SameMember(st, st', k) { }
    forall ws, u | ws in st.workspaces ensures OwnsWorkspace(st, ws, u) <==> OwnsWorkspace(st', ws, u) {
      assert SameMember(st, st', MemberKey(ws, u));
    }
  }

  lemma MemberWriteFootprint(st: Store, revived: set<TaskId>, t: Txn, w: Write, now: Time)
    requires Consistent(st) && TxnOk(st, revived, t) && t.phase == Committing(w)
    requires w.MemberWrite? || w.RoleWrite?
    ensures Footprint(st, Apply(st, t.ws, t.actor, w, now), t)
  {
    assert Holds(t, MemberLock(MemberKey(t.ws, w.user)));
  }

  lemma TaskWriteFootprint(st: Store, revived: set<TaskId>, t: Txn, w: Write, now: Time)
    requires Consistent(st) && TxnOk(st, revived, t) && t.phase == Committing(w)
    requires w.StatusWrite? || w.AssigneeWrite? || w.EditWrite? || w.DeleteWrite?
    ensures Footprint(st, Apply(st, t.ws, t.actor, w, now), t)
  {
    assert Holds(t, TaskLock(w.id));
    var st' := Apply(st, t.ws, t.actor, w, now);
    assert forall id :: id != w.id ==> SameTask(st, st', id);
  }

  lemma RemovalFootprint(st: Store, revived: set<TaskId>, t: Txn, w: Write, now: Time)
    requires Consistent(st) && TxnOk(st, revived, t) && t.phase == Committing(w) && w.RemovalWrite?
    ensures Footprint(st, Apply(st, t.ws, t.actor, w, now), t)
  {
    var key := MemberKey(t.ws, w.user);
    assert Holds(t, MemberLock(key));
    var st' := Apply(st, t.ws, t.actor, w, now);
    forall id | !Holds(t, TaskLock(id)) ensures SameTask(st, st', id) { assert id !in w.cleared; }
    assert forall k :: k != key ==> SameMember(st, st', k);
    assert !OwnsWorkspace(st, t.ws, w.user);
    forall ws, u ensures OwnsWorkspace(st, ws, u) <==> OwnsWorkspace(st', ws, u) {
      if MemberKey(ws, u) != key { assert SameMember(st, st', MemberKey(ws, u)); }
    }
  }

  /** While another transaction removes `u`, new work on `u` can only come from reopening a finished task. */
  lemma NewWorkIsReopened(s: State, i: nat, w: Write, now: Time, b: nat, id: TaskId)
    requires Inv(s) && i < |s.txns| && s.txns[i].phase == Committing(w)
    requires b < |s.txns| && b != i && RemovalAllowed(s.txns[b])
    requires var st' := Apply(s.store, s.txns[i].ws, s.txns[i].actor, w, now);
             id in OpenWork(st', s.txns[b].ws, s.txns[b].op.user)
    ensures id in OpenWork(s.store, s.txns[b].ws, s.txns[b].op.user) || Reopens(s.store, w, id)
  {
    var key := MemberKey(s.txns[b].ws, s.txns[b].op.user);
    assert Holds(s.txns[b], MemberLock(key));
    Exclusive(s, i, b, MemberLock(key));
    NewWorkNeedsLock(s.store, s.revived, s.txns[i], w, now, key, id);
  }

  lemma NewWorkNeedsLock(st: Store, revived: set<TaskId>, t: Txn, w: Write, now: Time, key: MemberKey, id: TaskId)
    requires Consistent(st) && TxnOk(st, revived, t) && t.phase == Committing(w) && !Holds(t, MemberLock(key))
    requires id in OpenWork(Apply(st, t.ws, t.actor, w, now), key.workspaceId, key.userId)
    ensures id in OpenWork(st, key.workspaceId, key.userId) || Reopens(st, w, id)
  {
    assert w.AssigneeWrite? && w.assignee == Some(key.userId) ==> key.userId in t.seen;
  }

  /** A removal in progress keeps the flags of its target's work alive. */
  lemma FlagsSurvive(s: State, w: Write, next: State, b: nat, id: TaskId)
    requires LocksOk(next) && b < |next.txns| && RemovalAllowed(next.txns[b])
    requires id in OpenWork(next.store, next.txns[b].ws, next.txns[b].op.user)
    ensures id in Flag(s, w, next).revived <==> id in s.revived || Reopens(s.store, w, id)
  {
    assert Holds(next.txns[b], MemberLock(MemberKey(next.txns[b].ws, next.txns[b].op.user)));
  }

  lemma CommitFlagsWork(s: State, i: nat, w: Write, now: Time, b: nat)
    requires Inv(s) && i < |s.txns| && s.txns[i].phase == Committing(w)
    requires b < |s.txns| && b != i && RemovalAllowed(s.txns[b])
    ensures WorkFlagged(s.store, s.revived, CommitState(s, i, w, now).store, CommitState(s, i, w, now).revived,
                        s.txns[b].ws, s.txns[b].op.user)
  {
    var t := s.txns[i];
    var next := Committed(s, i, w, now);
    CommitKeepsLocks(s, i, w, now);
    forall id | id in OpenWork(next.store, s.txns[b].ws, s.txns[b].op.user)
      ensures id in Flag(s, w, next).revived
              || (id in OpenWork(s.store, s.txns[b].ws, s.txns[b].op.user) && id !in s.revived)
    {
      NewWorkIsReopened(s, i, w, now, b, id);
      FlagsSurvive(s, w, next, b, id);
    }
  }

  /** The committed state before its flags are brought up to date. */
  function Committed(s: State, i: nat, w: Write, now: Time): State
    requires i < |s.txns|
  {
    Install(s.(store := Apply(s.store, s.txns[i].ws, s.txns[i].actor, w, now)), i,
            Finish(s.txns[i], Result.Committed(w != NoWrite)))
  }

  lemma OtherTxnKept(st: Store, revived: set<TaskId>, st': Store, revived': set<TaskId>, a: Txn, b: Txn)
    requires Consistent(st) && Footprint(st, st', a)
    requires TxnOk(st, revived, b)
    requires forall r :: !(Holds(a, r) && Holds(b, r))
    requires RemovalAllowed(b) ==> WorkFlagged(st, revived, st', revived', b.ws, b.op.user)
    ensures TxnOk(st', revived', b)
  {
    if b.phase.Begin? || b.phase.Finished? { return; }
    ReadsKept(st, revived, st', revived', a, b);
    assert OwnerSnapshotCurrent(st', b);
    match b.phase
    case Scanning(cursor) => VisitedKept(st, revived, st', revived', a, b, cursor);
    case Writing(w) =>
    case Committing(w) =>
      if w.RemovalWrite? {
        VisitedKept(st, revived, st', revived', a, b, st.nextTaskId);
      } else {
        WriteKept(st, revived, st', revived', a, b, w);
      }
    case _ =>
  }

  lemma ReadsKept(st: Store, revived: set<TaskId>, st': Store, revived': set<TaskId>, a: Txn, b: Txn)
    requires Consistent(st) && Footprint(st, st', a)
    requires ReadsCurrent(st, b) && (ForWorkspace(b.op) ==> b.ws in st.workspaces)
    requires forall r :: !(Holds(a, r) && Holds(b, r))
    ensures ReadsCurrent(st', b)
  {
    forall u | u in b.seen ensures SameMember(st, st', MemberKey(b.ws, u)) {
      assert Holds(b, MemberLock(MemberKey(b.ws, u)));
      assert MemberKey(b.ws, u) in st.members;
    }
    if b.row.Some? {
      var id := TaskOf(b.op).value;
      assert Holds(b, TaskLock(id));
      assert TaskConsistent(st, id);
      assert SameTask(st, st', id);
    }
    forall id | id in b.cleared ensures id in st.tasks ==> SameTask(st, st', id) {
      assert Holds(b, TaskLock(id));
      if id in st.tasks { assert TaskConsistent(st, id); }
    }
  }

  lemma VisitedKept(st: Store, revived: set<TaskId>, st': Store, revived': set<TaskId>, a: Txn, b: Txn, below: TaskId)
    requires Consistent(st) && Footprint(st, st', a)
    requires RemovalAllowed(b) && Visited(st, revived, b, below)
    requires WorkFlagged(st, revived, st', revived', b.ws, b.op.user)
    ensures Visited(st', revived', b, below)
    ensures below == st.nextTaskId ==> Visited(st', revived', b, st'.nextTaskId)
  {
    forall id | id in OpenWork(st', b.ws, b.op.user)
      ensures id in revived' || (id in OpenWork(st, b.ws, b.op.user) && id !in revived && id < st.nextTaskId)
    {
      if id !in revived' { assert TaskConsistent(st, id); }
    }
  }

  lemma WriteKept(st: Store, revived: set<TaskId>, st': Store, revived': set<TaskId>, a: Txn, b: Txn, w: Write)
    requires Consistent(st) && Footprint(st, st', a)
    requires WriteReady(st, revived, b, w) && b.phase == Committing(w) && !w.RemovalWrite?
    requires ForWorkspace(b.op) ==> b.ws in st.workspaces
    requires forall r :: !(Holds(a, r) && Holds(b, r))
    ensures WriteReady(st', revived', b, w)
  {
    match w
    case MemberWrite(user, _) => assert Holds(b, MemberLock(MemberKey(b.ws, user)));
    case RoleWrite(user, _) => assert Holds(b, MemberLock(MemberKey(b.ws, user)));
    case EditWrite(id, _) => assert Holds(b, TaskLock(id)); assert TaskConsistent(st, id);
    case DeleteWrite(id) => assert Holds(b, TaskLock(id)); assert TaskConsistent(st, id);
    case _ =>
  }

  lemma CommitTasksConsistent(st: Store, revived: set<TaskId>, t: Txn, w: Write, now: Time, id: TaskId)
    requires Consistent(st) && TxnOk(st, revived, t) && t.phase == Committing(w)
    requires id in Apply(st, t.ws, t.actor, w, now).tasks
    ensures TaskConsistent(Apply(st, t.ws, t.actor, w, now), id)
  {
    if id in st.tasks { assert TaskConsistent(st, id); }
    if w.AssigneeWrite? { AssigneeIsUser(st, revived, t, w); }
  }

  /** Whoever a task is assigned to is a member, hence a user. */
  lemma AssigneeIsUser(st: Store, revived: set<TaskId>, t: Txn, w: Write)
    requires Consistent(st) && TxnOk(st, revived, t) && t.phase == Committing(w) && w.AssigneeWrite?
    ensures w.assignee.Some? ==> w.assignee.value in st.users
  {
    assert w.assignee.Some? ==> w.assignee.value in t.seen;
    assert w.assignee.Some? ==> MemberKey(t.ws, w.assignee.value) in st.members;
  }

  lemma CommitConsistent(st: Store, revived: set<TaskId>, t: Txn, w: Write, now: Time)
    requires Consistent(st) && TxnOk(st, revived, t) && t.phase == Committing(w)
    ensures Consistent(Apply(st, t.ws, t.actor, w, now))
  {
    var st' := Apply(st, t.ws, t.actor, w, now);
    forall id | id in st'.tasks ensures TaskConsistent(st', id) { CommitTasksConsistent(st, revived, t, w, now, id); }
    forall k | k in st'.members ensures k.workspaceId in st'.workspaces && k.userId in st'.users {
      if k in st.members { assert k.workspaceId in st.workspaces && k.userId in st.users; }
    }
  }

  lemma CommitKeepsOther(s: State, i: nat, w: Write, now: Time, j: nat)
    requires Inv(s) && i < |s.txns| && s.txns[i].phase == Committing(w)
    requires j < |s.txns| && j != i
    ensures TxnOk(CommitState(s, i, w, now).store, CommitState(s, i, w, now).revived, s.txns[j])
  {
    var t := s.txns[i];
    var st' := Apply(s.store, t.ws, t.actor, w, now);
    CommitFootprint(s.store, s.revived, t, w, now);
    if RemovalAllowed(s.txns[j]) { CommitFlagsWork(s, i, w, now, j); }
    forall r ensures !(Holds(t, r) && Holds(s.txns[j], r)) { Exclusive(s, i, j, r); }
    OtherTxnKept(s.store, s.revived, st', CommitState(s, i, w, now).revived, t, s.txns[j]);
  }

  lemma CommitKeepsLocks(s: State, i: nat, w: Write, now: Time)
    requires LocksOk(s) && i < |s.txns|
    ensures LocksOk(Committed(s, i, w, now)) && LocksOk(CommitState(s, i, w, now))
  {
    var done := Finish(s.txns[i], Result.Committed(w != NoWrite));
    InstallOk(s, i, done, None);
    SameLocksOk(Install(s.(locks := Granted(s.locks, None, i)), i, done), Committed(s, i, w, now));
    SameLocksOk(Committed(s, i, w, now), CommitState(s, i, w, now));
  }

  lemma CommitKeepsTxn(s: State, i: nat, w: Write, now: Time, j: nat)
    requires Inv(s) && i < |s.txns| && s.txns[i].phase == Committing(w) && j < |s.txns|
    ensures var s2 := CommitState(s, i, w, now);
            j < |s2.txns| && TxnOk(s2.store, s2.revived, s2.txns[j])
  {
    if j != i { CommitKeepsOther(s, i, w, now, j); }
  }

  lemma CommitKeepsInv(s: State, i: nat, w: Write, now: Time)
    requires Inv(s) && i < |s.txns| && s.txns[i].phase == Committing(w)
    ensures Inv(CommitState(s, i, w, now))
  {
    var s2 := CommitState(s, i, w, now);
    assert Consistent(s2.store) by { CommitConsistent(s.store, s.revived, s.txns[i], w, now); }
    assert LocksOk(s2) by { CommitKeepsLocks(s, i, w, now); }
    forall j | 0 <= j < |s2.txns| ensures TxnOk(s2.store, s2.revived, s2.txns[j]) { CommitKeepsTxn(s, i, w, now, j); }
  }

  /** Flags only matter to a removal, and only on its target's work. */
  lemma TxnOkWithFlags(st: Store, revived: set<TaskId>, revived': set<TaskId>, t: Txn)
    requires TxnOk(st, revived, t)
    requires RemovalAllowed(t) ==> forall id :: id in OpenWork(st, t.ws, t.op.user) && id in revived ==> id in revived'
    ensures TxnOk(st, revived', t)
  {
    match t.phase
    case Scanning(cursor) => assert Visited(st, revived', t, cursor);
    case Committing(w) => if w.RemovalWrite? { assert Visited(st, revived', t, st.nextTaskId); }
    case _ =>
  }

  lemma StepKeepsTxn(s: State, next: State, j: nat)
    requires LocksOk(next) && next.store == s.store && j < |next.txns| && TxnOk(s.store, s.revived, next.txns[j])
    ensures TxnOk(next.store, Flag(s, NoWrite, next).revived, next.txns[j])
  {
    if RemovalAllowed(next.txns[j]) {
      forall id | id in OpenWork(next.store, next.txns[j].ws, next.txns[j].op.user) && id in s.revived
        ensures id in Flag(s, NoWrite, next).revived
      {
        FlagsSurvive(s, NoWrite, next, j, id);
      }
    }
    TxnOkWithFlags(next.store, s.revived, Flag(s, NoWrite, next).revived, next.txns[j]);
  }

  /** A step that leaves the committed store alone only concerns the mover, its locks and the flags. */
  lemma LocalKeepsInv(s: State, i: nat, n: Txn, gained: Option<Resource>)
    requires Inv(s) && i < |s.txns|
    requires TxnOk(s.store, s.revived, n) && LocksChange(s, i, n, gained)
    ensures Inv(StepState(s, i, n, gained))
  {
    var next := Install(s.(locks := Granted(s.locks, gained, i)), i, n);
    var flagged := StepState(s, i, n, gained);
    InstallOk(s, i, n, gained);
    SameLocksOk(next, flagged);
    forall j | 0 <= j < |flagged.txns| ensures TxnOk(flagged.store, flagged.revived, flagged.txns[j]) {
      assert TxnOk(s.store, s.revived, next.txns[j]);
      StepKeepsTxn(s, next, j);
    }
  }

  /** Every event of every transaction keeps the invariant. */
  lemma FireKeepsInv(s: State, e: Event)
    requires Inv(s) && Enabled(s, e)
    ensures Inv(Fire(s, e))
  {
    var t := s.txns[e.i];
    match e
    case Fail(i) => LocalKeepsInv(s, i, Abort(t, DatabaseError), None);
    case Run(i, now) =>
      var m := NextMove(s.store, t);
      assert Acquires(s.store, s.revived, t, m) by { MoveOk(s.store, s.revived, t); }
      match m
      case Continue(n) => LocalKeepsInv(s, i, n, None);
      case Take(r, n) => LocalKeepsInv(s, i, n, Some(r));
      case Pass(_, n) => LocalKeepsInv(s, i, n, None);
      case Commit(w) => assert t.phase == Committing(w); CommitKeepsInv(s, i, w, now);
  }

  lemma {:induction false} RunKeepsInv(states: seq<State>, events: seq<Event>, k: nat)
    requires IsRun(states, events) && Inv(states[0]) && k < |states|
    ensures Inv(states[k])
    decreases k
  {
    if k > 0 {
      RunKeepsInv(states, events, k - 1);
      FireKeepsInv(states[k - 1], events[k - 1]);
    }
  }
}
