/** Whose unfinished work it is: when an unfinished task can belong to somebody who is no member, in one step and over
    whole runs. */
module UnfinishedWork {
  import opened Wrappers
  import opened Policies
  import opened Schema
  import opened Transactions
  import opened Protocol
  import opened ProtocolInvariant
  import opened ProtocolSafety

  /** An unfinished task whose assignee is not a member of its workspace. */
  predicate Orphan(st: Store, id: TaskId) {
    && id in st.tasks
    && st.tasks[id].status != Done
    && st.tasks[id].assigneeId.Some?
    && !IsMember(st, st.tasks[id].workspaceId, st.tasks[id].assigneeId.value)
  }

  // ---------------------------------------------------------------- one step

  predicate ReopensForNonMember(st: Store, w: Write, id: TaskId) {
    && Reopens(st, w, id)
    && st.tasks[id].assigneeId.Some?
    && !IsMember(st, st.tasks[id].workspaceId, st.tasks[id].assigneeId.value)
  }

  predicate MissedByRemoval(st: Store, ws: WorkspaceId, w: Write, id: TaskId) {
    w.RemovalWrite? && id in OpenWork(st, ws, w.user) - w.cleared
  }

  lemma TaskWriteOrphansIff(st: Store, revived: set<TaskId>, t: Txn, w: Write, now: Time, id: TaskId)
    requires Consistent(st) && TxnOk(st, revived, t) && t.phase == Committing(w) && !Orphan(st, id)
    requires w.StatusWrite? || w.AssigneeWrite? || w.EditWrite? || w.DeleteWrite?
    ensures Orphan(Apply(st, t.ws, t.actor, w, now), id) <==> ReopensForNonMember(st, w, id)
  {
  }

  lemma RemovalOrphansIff(st: Store, revived: set<TaskId>, t: Txn, w: Write, now: Time, id: TaskId)
    requires Consistent(st) && TxnOk(st, revived, t) && t.phase == Committing(w) && !Orphan(st, id) && w.RemovalWrite?
    ensures Orphan(Apply(st, t.ws, t.actor, w, now), id) <==> MissedByRemoval(st, t.ws, w, id)
  {
    if id in st.tasks && st.tasks[id].assigneeId.Some? {
      var key := MemberKey(st.tasks[id].workspaceId, st.tasks[id].assigneeId.value);
      assert key == MemberKey(t.ws, w.user) <==> key.workspaceId == t.ws && key.userId == w.user;
    }
  }

  lemma OtherWriteOrphansNone(st: Store, revived: set<TaskId>, t: Txn, w: Write, now: Time, id: TaskId)
    requires Consistent(st) && TxnOk(st, revived, t) && t.phase == Committing(w) && !Orphan(st, id)
    requires w.NoWrite? || w.MemberWrite? || w.RoleWrite? || w.TaskInsert? || w.WorkspaceInsert? || w.UserInsert?
    ensures !Orphan(Apply(st, t.ws, t.actor, w, now), id)
  {
    if id in st.tasks { assert TaskConsistent(st, id); }
  }

  /** Exactly which events make a task an orphan: a manager reopens a finished task of a non-member, or a removal
      commits without having cleared an unfinished task of its target. */
  lemma EventOrphansIff(s: State, e: Event, id: TaskId)
    requires Inv(s) && Enabled(s, e) && !Orphan(s.store, id)
    ensures Orphan(Fire(s, e).store, id)
       <==> CommitOf(s, e).Some?
            && (ReopensForNonMember(s.store, CommitOf(s, e).value, id)
                || MissedByRemoval(s.store, s.txns[e.i].ws, CommitOf(s, e).value, id))
  {
    match CommitOf(s, e)
    case None => OnlyCommitsWrite(s, e);
    case Some(w) =>
      CommitEffect(s, e, w);
      WriteOrphansIff(s.store, s.revived, s.txns[e.i], w, e.now, id);
  }

  lemma WriteOrphansIff(st: Store, revived: set<TaskId>, t: Txn, w: Write, now: Time, id: TaskId)
    requires Consistent(st) && TxnOk(st, revived, t) && t.phase == Committing(w) && !Orphan(st, id)
    ensures Orphan(Apply(st, t.ws, t.actor, w, now), id)
       <==> ReopensForNonMember(st, w, id) || MissedByRemoval(st, t.ws, w, id)
  {
    if w.RemovalWrite? {
      RemovalOrphansIff(st, revived, t, w, now, id);
    } else if w.StatusWrite? || w.AssigneeWrite? || w.EditWrite? || w.DeleteWrite? {
      TaskWriteOrphansIff(st, revived, t, w, now, id);
    } else {
      OtherWriteOrphansNone(st, revived, t, w, now, id);
    }
  }

  // ---------------------------------------------------------------- the flags

  ghost predicate OrphansFlagged(s: State) {
    forall id :: Orphan(s.store, id) ==> id in s.revived
  }

  ghost predicate FlagsUnsettled(s: State) {
    forall id :: id in s.revived ==> Unsettled(s, id)
  }

  predicate ReopenedBy(s: State, e: Event, id: TaskId)
    requires Enabled(s, e)
  {
    CommitOf(s, e).Some? && Reopens(s.store, CommitOf(s, e).value, id)
  }

  /** A flag is set by reopening and is gone as soon as the assignee is a settled member. */
  lemma FireFlags(s: State, e: Event, id: TaskId)
    requires Enabled(s, e)
    ensures id in Fire(s, e).revived <==> Unsettled(Fire(s, e), id) && (id in s.revived || ReopenedBy(s, e, id))
  {
  }

  lemma FireKeepsOrphansFlagged(s: State, e: Event)
    requires Inv(s) && OrphansFlagged(s) && Enabled(s, e)
    ensures OrphansFlagged(Fire(s, e)) && FlagsUnsettled(Fire(s, e))
  {
    forall id ensures Orphan(Fire(s, e).store, id) ==> id in Fire(s, e).revived
              ensures id in Fire(s, e).revived ==> Unsettled(Fire(s, e), id)
    {
      FireFlags(s, e, id);
      if Orphan(Fire(s, e).store, id) && !Orphan(s.store, id) { NewOrphanIsFlagged(s, e, id); }
    }
  }

  lemma NewOrphanIsFlagged(s: State, e: Event, id: TaskId)
    requires Inv(s) && Enabled(s, e) && !Orphan(s.store, id) && Orphan(Fire(s, e).store, id)
    ensures id in s.revived || ReopenedBy(s, e, id)
  {
    EventOrphansIff(s, e, id);
    var w := CommitOf(s, e).value;
    CommitEffect(s, e, w);
    if w.RemovalWrite? { assert TaskConsistent(s.store, id); }
  }

  /** In every state of every run, an unfinished task's assignee is a member or the task is flagged, and a flagged
      task's assignee is no member or is being removed at that moment. */
  lemma {:induction false} RunKeepsOrphansFlagged(states: seq<State>, events: seq<Event>, k: nat)
    requires IsRun(states, events) && Inv(states[0]) && OrphansFlagged(states[0]) && FlagsUnsettled(states[0])
    requires k < |states|
    ensures OrphansFlagged(states[k]) && FlagsUnsettled(states[k])
    decreases k
  {
    if k > 0 {
      RunKeepsOrphansFlagged(states, events, k - 1);
      RunKeepsInv(states, events, k - 1);
      FireKeepsOrphansFlagged(states[k - 1], events[k - 1]);
    }
  }

  lemma RunKeepsFlagsUnsettled(states: seq<State>, events: seq<Event>, k: nat)
    requires IsRun(states, events) && FlagsUnsettled(states[0]) && k < |states|
    ensures FlagsUnsettled(states[k])
  {
    if k > 0 {
      assert states[k] == Fire(states[k - 1], events[k - 1]);
      forall id | id in states[k].revived
        ensures Unsettled(states[k], id)
      {
        FireFlags(states[k - 1], events[k - 1], id);
      }
    }
  }

  // ---------------------------------------------------------------- who set a flag

  /** A manager reopens a finished task whose assignee is no member, or is being removed by a concurrent request. */
  predicate ReopensForLeaver(s: State, e: Event, id: TaskId)
    requires Enabled(s, e)
  {
    && ReopenedBy(s, e, id)
    && s.store.tasks[id].assigneeId.Some?
    && (var key := MemberKey(s.store.tasks[id].workspaceId, s.store.tasks[id].assigneeId.value);
        key !in s.store.members || Leaving(s, key))
    && s.txns[e.i].actor in s.txns[e.i].seen && IsManager(s.txns[e.i].seen[s.txns[e.i].actor])
  }

  predicate SameHolder(st: Store, st': Store, id: TaskId) {
    && id in st.tasks && id in st'.tasks
    && st'.tasks[id].assigneeId == st.tasks[id].assigneeId
    && st'.tasks[id].workspaceId == st.tasks[id].workspaceId
  }

  lemma StatusWriteReopens(s: State, e: Event, id: TaskId)
    requires Inv(s) && Enabled(s, e) && ReopenedBy(s, e, id) && Unsettled(Fire(s, e), id)
    ensures ReopensForLeaver(s, e, id) && SameHolder(s.store, Fire(s, e).store, id)
  {
    var w := CommitOf(s, e).value;
    CommitEffect(s, e, w);
    assert LockedDecision(s.txns[e.i]) == Change;
  }

  lemma UnsettledKeepsHolder(s: State, e: Event, id: TaskId)
    requires Inv(s) && Enabled(s, e) && Unsettled(s, id) && Unsettled(Fire(s, e), id)
    ensures SameHolder(s.store, Fire(s, e).store, id)
  {
    match CommitOf(s, e)
    case None => OnlyCommitsWrite(s, e);
    case Some(w) =>
      CommitEffect(s, e, w);
      assert TaskConsistent(s.store, id);
      if w.AssigneeWrite? && w.id == id { AssigneeWriteSettles(s, e.i, w, e.now); }
  }

  /** A new assignee is a member whose row the assigning request held, so no removal holds it. */
  lemma AssigneeWriteSettles(s: State, i: nat, w: Write, now: Time)
    requires Inv(s) && i < |s.txns| && s.txns[i].phase == Committing(w) && w.AssigneeWrite?
    ensures !Unsettled(CommitState(s, i, w, now), w.id)
  {
    var t := s.txns[i];
    assert TxnOk(s.store, s.revived, t);
    if w.assignee.Some? {
      var r := MemberLock(MemberKey(t.ws, w.assignee.value));
      assert Holds(t, r);
      assert r in s.locks && s.locks[r] == i;
      assert r !in CommitState(s, i, w, now).locks;
    }
  }

  lemma FlagStep(s: State, e: Event, id: TaskId)
    requires Inv(s) && FlagsUnsettled(s) && Enabled(s, e) && id in Fire(s, e).revived
    ensures id !in s.revived ==> ReopensForLeaver(s, e, id)
    ensures SameHolder(s.store, Fire(s, e).store, id) && Unsettled(Fire(s, e), id)
  {
    FireFlags(s, e, id);
    if id in s.revived { UnsettledKeepsHolder(s, e, id); } else { StatusWriteReopens(s, e, id); }
  }

  /** After event `j`, up to state `k`, the task has the assignee it had at `j`, who is never a settled member. */
  ghost predicate HeldSince(states: seq<State>, j: nat, k: nat, id: TaskId)
    requires j < k < |states|
  {
    forall m :: j < m <= k ==> Unsettled(states[m], id) && SameHolder(states[j].store, states[m].store, id)
  }

  lemma HeldLonger(states: seq<State>, j: nat, k: nat, id: TaskId)
    requires j < k && k + 1 < |states| && HeldSince(states, j, k, id)
    requires Unsettled(states[k + 1], id) && SameHolder(states[k].store, states[k + 1].store, id)
    ensures HeldSince(states, j, k + 1, id)
  {
  }

  /** A flag in the next state was there before, on the same holder, or this event is the reopening that set it. */
  ghost predicate FlagExplained(states: seq<State>, events: seq<Event>, k: nat, id: TaskId)
    requires IsRun(states, events) && k < |events|
  {
    id in states[k + 1].revived ==>
      && (id !in states[k].revived ==> ReopensForLeaver(states[k], events[k], id))
      && SameHolder(states[k].store, states[k + 1].store, id)
      && Unsettled(states[k + 1], id)
  }

  lemma RunFlagStep(states: seq<State>, events: seq<Event>, k: nat, id: TaskId)
    requires IsRun(states, events) && Inv(states[0]) && FlagsUnsettled(states[0]) && k < |events|
    ensures FlagExplained(states, events, k, id)
  {
    if id in states[k + 1].revived {
      RunKeepsInv(states, events, k);
      RunKeepsFlagsUnsettled(states, events, k);
      FlagStep(states[k], events[k], id);
    }
  }

  lemma {:induction false} FlagChain(states: seq<State>, events: seq<Event>, k: nat, id: TaskId) returns (j: nat)
    requires IsRun(states, events) && k < |states|
    requires forall m :: 0 <= m < k ==> FlagExplained(states, events, m, id)
    requires id in states[k].revived && id !in states[0].revived
    ensures j < k && ReopensForLeaver(states[j], events[j], id) && HeldSince(states, j, k, id)
    decreases k
  {
    assert FlagExplained(states, events, k - 1, id);
    if id in states[k - 1].revived {
      j := FlagChain(states, events, k - 1, id);
      HeldLonger(states, j, k - 1, id);
    } else {
      j := k - 1;
    }
  }

  lemma FlagHasReopen(states: seq<State>, events: seq<Event>, k: nat, id: TaskId) returns (j: nat)
    requires IsRun(states, events) && Inv(states[0]) && FlagsUnsettled(states[0]) && k < |states|
    requires id in states[k].revived && id !in states[0].revived
    ensures j < k && ReopensForLeaver(states[j], events[j], id) && HeldSince(states, j, k, id)
  {
    forall m | 0 <= m < k ensures FlagExplained(states, events, m, id) { RunFlagStep(states, events, m, id); }
    j := FlagChain(states, events, k, id);
  }

  // ---------------------------------------------------------------- removals

  /** A removal of this member takes the membership row. */
  predicate TakesRemovalRow(s: State, e: Event, ws: WorkspaceId, u: UserId)
    requires Enabled(s, e)
  {
    && e.Run? && s.txns[e.i].ws == ws && s.txns[e.i].op == RemoveMember(u)
    && NextMove(s.store, s.txns[e.i]).Take? && NextMove(s.store, s.txns[e.i]).wait == MemberLock(MemberKey(ws, u))
  }

  /** The row of a member about to be removed is free, so none of the member's work is unsettled then. */
  lemma RemovalStartsSettled(s: State, e: Event, ws: WorkspaceId, u: UserId, id: TaskId)
    requires Inv(s) && Enabled(s, e) && TakesRemovalRow(s, e, ws, u) && id in s.store.tasks
    requires s.store.tasks[id].workspaceId == ws && s.store.tasks[id].assigneeId == Some(u)
    ensures !Unsettled(s, id)
  {
    var r := MemberLock(MemberKey(ws, u));
    assert TxnOk(s.store, s.revived, s.txns[e.i]);
    assert r in s.locks ==> s.locks[r] == e.i;
    assert !Holds(s.txns[e.i], r);
  }

  ghost predicate NoRemovalStarts(states: seq<State>, events: seq<Event>, j: nat, k: nat, ws: WorkspaceId, u: UserId)
    requires IsRun(states, events) && k < |states|
  {
    forall m :: j < m < k ==> !TakesRemovalRow(states[m], events[m], ws, u)
  }

  lemma HeldMeansNoRemoval(states: seq<State>, events: seq<Event>, j: nat, k: nat, id: TaskId)
    requires IsRun(states, events) && Inv(states[0]) && j < k < |states| && HeldSince(states, j, k, id)
    ensures id in states[k].store.tasks && states[k].store.tasks[id].assigneeId.Some?
    ensures var task := states[k].store.tasks[id];
            NoRemovalStarts(states, events, j, k, task.workspaceId, task.assigneeId.value)
  {
    assert Unsettled(states[k], id) && SameHolder(states[j].store, states[k].store, id);
    var task := states[k].store.tasks[id];
    forall m | j < m < k ensures !TakesRemovalRow(states[m], events[m], task.workspaceId, task.assigneeId.value) {
      RunKeepsInv(states, events, m);
      assert Unsettled(states[m], id) && SameHolder(states[j].store, states[m].store, id);
      if TakesRemovalRow(states[m], events[m], task.workspaceId, task.assigneeId.value) {
        RemovalStartsSettled(states[m], events[m], task.workspaceId, task.assigneeId.value, id);
      }
    }
  }

  /** Main result on assignments: from a store without orphans, an unfinished task can belong to a non-member only
      because a manager reopened it for someone who had left or was being removed; since then that assignee was never a
      settled member, no removal of that assignee started, and nothing reassigned the task. */
  lemma OrphanOnlyByReopening(states: seq<State>, events: seq<Event>, k: nat, id: TaskId) returns (j: nat)
    requires IsRun(states, events) && Initial(states[0]) && k < |states|
    requires forall t :: !Orphan(states[0].store, t)
    requires Orphan(states[k].store, id)
    ensures j < k && ReopensForLeaver(states[j], events[j], id) && HeldSince(states, j, k, id)
    ensures var task := states[k].store.tasks[id];
            NoRemovalStarts(states, events, j, k, task.workspaceId, task.assigneeId.value)
  {
    InitialKeepsInv(states[0]);
    RunKeepsOrphansFlagged(states, events, k);
    j := FlagHasReopen(states, events, k, id);
    HeldMeansNoRemoval(states, events, j, k, id);
  }

  /** A removal misses only tasks that were reopened after it had taken the membership row. */
  lemma MissedWasReopened(states: seq<State>, events: seq<Event>, j: nat, k: nat, id: TaskId) returns (m: nat)
    requires IsRun(states, events) && Initial(states[0]) && j < k < |events|
    requires CommitOf(states[k], events[k]).Some?
    requires MissedByRemoval(states[k].store, states[k].txns[events[k].i].ws, CommitOf(states[k], events[k]).value, id)
    requires TakesRemovalRow(states[j], events[j], states[k].txns[events[k].i].ws,
             CommitOf(states[k], events[k]).value.user)
    ensures j < m < k && ReopensForLeaver(states[m], events[m], id) && HeldSince(states, m, k, id)
  {
    InitialKeepsInv(states[0]);
    RunKeepsInv(states, events, k);
    MissedIsFlagged(states[k], events[k], id);
    m := FlagHasReopen(states, events, k, id);
    HeldMeansNoRemoval(states, events, m, k, id);
    assert j != m;
  }

  lemma MissedIsFlagged(s: State, e: Event, id: TaskId)
    requires Inv(s) && Enabled(s, e) && CommitOf(s, e).Some?
    requires MissedByRemoval(s.store, s.txns[e.i].ws, CommitOf(s, e).value, id)
    ensures id in s.revived
  {
    CommitEffect(s, e, CommitOf(s, e).value);
    assert TaskConsistent(s.store, id);
  }

  lemma MissedWasFinishedMeanwhile(states: seq<State>, events: seq<Event>, j: nat, k: nat, id: TaskId) returns (m: nat)
    requires IsRun(states, events) && Initial(states[0]) && j < k < |events|
    requires CommitOf(states[k], events[k]).Some?
    requires MissedByRemoval(states[k].store, states[k].txns[events[k].i].ws, CommitOf(states[k], events[k]).value, id)
    requires TakesRemovalRow(states[j], events[j], states[k].txns[events[k].i].ws,
             CommitOf(states[k], events[k]).value.user)
    ensures j < m < k && id in states[m].store.tasks && states[m].store.tasks[id].status == Done
  {
    m := MissedWasReopened(states, events, j, k, id);
  }

  /** Work the user holds in every state of the removal, from taking the membership row to the commit, is cleared,
      whatever happened before. */
  lemma SteadyWorkIsCleared(states: seq<State>, events: seq<Event>, j: nat, k: nat, id: TaskId)
    requires IsRun(states, events) && Initial(states[0]) && j < k < |events|
    requires CommitOf(states[k], events[k]).Some? && CommitOf(states[k], events[k]).value.RemovalWrite?
    requires TakesRemovalRow(states[j], events[j], states[k].txns[events[k].i].ws,
             CommitOf(states[k], events[k]).value.user)
    requires forall m :: j < m <= k ==>
               id in OpenWork(states[m].store, states[k].txns[events[k].i].ws,
                   CommitOf(states[k], events[k]).value.user)
    ensures id in CommitOf(states[k], events[k]).value.cleared
    ensures id in states[k + 1].store.tasks && states[k + 1].store.tasks[id].assigneeId == None
  {
    var ws, w := states[k].txns[events[k].i].ws, CommitOf(states[k], events[k]).value;
    assert id in OpenWork(states[k].store, ws, w.user);
    if id !in w.cleared { var m := MissedWasFinishedMeanwhile(states, events, j, k, id); }
    InitialKeepsInv(states[0]);
    RunKeepsInv(states, events, k);
    CommitEffect(states[k], events[k], w);
  }

  // ---------------------------------------------------------------- the exact condition for one status change

  /** Exactly when one accepted status change creates an orphan: it reopens a finished task of a non-member. */
  lemma StatusOrphansIff(st: Store, ws: WorkspaceId, actor: UserId, id: TaskId, requested: Status, now: Time)
    requires forall t :: !Orphan(st, t)
    requires AtomicStatus(st, ws, actor, id, requested, now).Accepted?
    ensures Orphan(AtomicStatus(st, ws, actor, id, requested, now).store, id)
       <==> st.tasks[id].status == Done && requested != Done
            && st.tasks[id].assigneeId.Some? && !IsMember(st, ws, st.tasks[id].assigneeId.value)
    ensures forall t :: t != id ==> !Orphan(AtomicStatus(st, ws, actor, id, requested, now).store, t)
  {
    assert !Orphan(st, id);
    var st' := AtomicStatus(st, ws, actor, id, requested, now).store;
    forall t | t != id ensures !Orphan(st', t) { assert !Orphan(st, t); }
  }
}
