/** Any number of MEMBER claims on one unassigned, unfinished task, and nothing else: exactly one wins, unless the
    database makes every one of them fail. */
module ClaimRace {
  import opened Wrappers
  import opened Policies
  import opened Schema
  import opened Transactions
  import opened Protocol
  import opened ProtocolInvariant

  ghost predicate Race(s: State, ws: WorkspaceId, id: TaskId) {
    && Initial(s)
    && HasTask(s.store, ws, id) && s.store.tasks[id].assigneeId == None && s.store.tasks[id].status != Done
    && forall i :: 0 <= i < |s.txns| ==> Claims(s.txns[i], ws, id) && PlainMember(s.store, ws, s.txns[i].actor)
  }

  predicate Claims(t: Txn, ws: WorkspaceId, id: TaskId) {
    t.ws == ws && t.op == SetAssignee(id, Some(t.actor))
  }

  predicate PlainMember(st: Store, ws: WorkspaceId, u: UserId) {
    IsMember(st, ws, u) && st.members[MemberKey(ws, u)].role == Member
  }

  const WON := Finished(Committed(true))

  const FAILED := Finished(Aborted(DatabaseError))

  /** Some request was made to fail by the database. */
  ghost predicate Faulty(events: seq<Event>) {
    exists j :: 0 <= j < |events| && events[j].Fail?
  }

  /** How far a claim can be, and what its result says about the task's holder. */
  predicate ClaimState(t: Txn, holder: Option<UserId>, faults: bool) {
    match t.phase
    case Begin => true
    case Locking(todo) => t.role == Member && (todo == [t.actor] || (todo == [] && t.actor in t.seen))
    case LockingTask => true
    case Deciding => true
    case Committing(w) => w.NoWrite? || (w.AssigneeWrite? && w.assignee == Some(t.actor))
    case Finished(r) =>
      (faults && r == Aborted(DatabaseError))
      || (holder.Some?
          && if holder.value != t.actor then r == Aborted(AssignmentConflict) else r.Committed?)
    case _ => false
  }

  predicate Winner(s: State, i: nat) {
    i < |s.txns| && s.txns[i].phase == WON
  }

  ghost predicate RaceInv(s: State, ws: WorkspaceId, id: TaskId, faults: bool) {
    Inv(s) && RaceOk(s, ws, id, faults)
  }

  ghost predicate RaceOk(s: State, ws: WorkspaceId, id: TaskId, faults: bool) {
    && HasTask(s.store, ws, id) && s.store.tasks[id].status != Done
    && var holder := s.store.tasks[id].assigneeId;
       && (forall i :: 0 <= i < |s.txns| ==>
             && Claims(s.txns[i], ws, id)
             && PlainMember(s.store, ws, s.txns[i].actor)
             && ClaimState(s.txns[i], holder, faults))
       && (holder.Some? ==> exists i: nat :: Winner(s, i) && s.txns[i].actor == holder.value)
       && (forall i: nat, j: nat :: Winner(s, i) && Winner(s, j) ==> i == j)
  }

  predicate ClaimGoesOn(t: Txn, n: Txn, ws: WorkspaceId, id: TaskId, holder: Option<UserId>, faults: bool) {
    Claims(n, ws, id) && n.actor == t.actor && ClaimState(n, holder, faults) && n.phase != WON
  }

  /** The claim's own step, as far as it does not write. */
  lemma ClaimMoves(st: Store, revived: set<TaskId>, t: Txn, ws: WorkspaceId, id: TaskId, faults: bool)
    requires Consistent(st) && TxnOk(st, revived, t) && Claims(t, ws, id) && PlainMember(st, ws, t.actor)
    requires HasTask(st, ws, id) && st.tasks[id].status != Done && ClaimState(t, st.tasks[id].assigneeId, faults)
    ensures match NextMove(st, t)
            case Continue(n) => ClaimGoesOn(t, n, ws, id, st.tasks[id].assigneeId, faults)
            case Take(_, n) => ClaimGoesOn(t, n, ws, id, st.tasks[id].assigneeId, faults)
            case Pass(_, n) => false
            case Commit(w) => w == (if st.tasks[id].assigneeId.None? then AssigneeWrite(id, Some(t.actor)) else NoWrite)
                              && (w == NoWrite ==> st.tasks[id].assigneeId == Some(t.actor))
            case Rest => t.phase.Finished?
  {
  }

  lemma FirstClaimKeepsRace(s: State, i: nat, now: Time, ws: WorkspaceId, id: TaskId, faults: bool)
    requires RaceOk(s, ws, id, faults) && i < |s.txns| && s.store.tasks[id].assigneeId == None
    ensures RaceOk(CommitState(s, i, AssigneeWrite(id, Some(s.txns[i].actor)), now), ws, id, faults)
  {
    var s' := CommitState(s, i, AssigneeWrite(id, Some(s.txns[i].actor)), now);
    assert forall j :: 0 <= j < |s.txns| ==> ClaimState(s.txns[j], None, faults);
    assert forall j: nat :: Winner(s', j) ==> j == i;
    assert Winner(s', i) && s'.txns[i].actor == s'.store.tasks[id].assigneeId.value;
  }

  lemma RepeatKeepsRace(s: State, i: nat, now: Time, ws: WorkspaceId, id: TaskId, faults: bool)
    requires RaceOk(s, ws, id, faults) && i < |s.txns| && s.txns[i].phase == Committing(NoWrite)
    requires s.store.tasks[id].assigneeId == Some(s.txns[i].actor)
    ensures RaceOk(CommitState(s, i, NoWrite, now), ws, id, faults)
  {
    var s' := CommitState(s, i, NoWrite, now);
    var j: nat :| Winner(s, j) && s.txns[j].actor == s.txns[i].actor;
    assert Winner(s', j) && s'.txns[j].actor == s.txns[i].actor;
    assert forall k: nat :: Winner(s', k) ==> Winner(s, k);
  }

  lemma LocalKeepsRace(s: State, s': State, i: nat, n: Txn, ws: WorkspaceId, id: TaskId, faults: bool)
    requires RaceOk(s, ws, id, faults) && i < |s.txns| && !s.txns[i].phase.Finished?
    requires s'.store == s.store && s'.txns == s.txns[i := n]
    requires Claims(n, ws, id) && n.actor == s.txns[i].actor && n.phase != WON
    requires ClaimState(n, s.store.tasks[id].assigneeId, faults)
    ensures RaceOk(s', ws, id, faults)
  {
    var holder := s.store.tasks[id].assigneeId;
    if holder.Some? {
      var j: nat :| Winner(s, j) && s.txns[j].actor == holder.value;
      assert Winner(s', j) && s'.txns[j].actor == holder.value;
    }
    assert forall k: nat :: Winner(s', k) ==> Winner(s, k);
  }

  lemma FireKeepsRace(s: State, e: Event, ws: WorkspaceId, id: TaskId, faults: bool)
    requires RaceInv(s, ws, id, faults) && Enabled(s, e) && (e.Run? || faults)
    ensures RaceInv(Fire(s, e), ws, id, faults)
  {
    FireKeepsInv(s, e);
    var t := s.txns[e.i];
    if e.Fail? {
      LocalKeepsRace(s, Fire(s, e), e.i, Abort(t, DatabaseError), ws, id, faults);
      return;
    }
    ClaimMoves(s.store, s.revived, t, ws, id, faults);
    match NextMove(s.store, t)
    case Commit(w) =>
      if s.store.tasks[id].assigneeId.None? { FirstClaimKeepsRace(s, e.i, e.now, ws, id, faults); }
      else { RepeatKeepsRace(s, e.i, e.now, ws, id, faults); }
    case Continue(n) => LocalKeepsRace(s, Fire(s, e), e.i, n, ws, id, faults);
    case Take(_, n) => LocalKeepsRace(s, Fire(s, e), e.i, n, ws, id, faults);
  }

  lemma RaceStarts(s: State, ws: WorkspaceId, id: TaskId, faults: bool)
    requires Race(s, ws, id)
    ensures RaceInv(s, ws, id, faults)
  {
    InitialKeepsInv(s);
    forall i | 0 <= i < |s.txns| ensures s.txns[i].phase == Begin {
      assert s.txns[i] == Request(s.txns[i].ws, s.txns[i].actor, s.txns[i].op);
    }
  }

  lemma {:induction false} RunKeepsRace(states: seq<State>, events: seq<Event>, k: nat, ws: WorkspaceId, id: TaskId,
                                        faults: bool)
    requires IsRun(states, events) && Race(states[0], ws, id) && k < |states|
    requires Faulty(events) ==> faults
    ensures RaceInv(states[k], ws, id, faults)
    decreases k
  {
    if k == 0 {
      RaceStarts(states[0], ws, id, faults);
    } else {
      RunKeepsRace(states, events, k - 1, ws, id, faults);
      FireKeepsRace(states[k - 1], events[k - 1], ws, id, faults);
    }
  }

  /** Once all claims have finished, and at least one was not failed by the database, one of them changed the task, it
      is the holder, and every other claimant got a conflict (or, if it is the holder asking again, an unchanged
      success). Without database failures there is always a winner. */
  lemma ExactlyOneClaimWins(states: seq<State>, events: seq<Event>, ws: WorkspaceId, id: TaskId) returns (winner: nat)
    requires IsRun(states, events) && Race(states[0], ws, id)
    requires forall i :: 0 <= i < |states[|events|].txns| ==> states[|events|].txns[i].phase.Finished?
    requires |states[0].txns| > 0
    requires Faulty(events) ==>
               exists i :: 0 <= i < |states[|events|].txns| && states[|events|].txns[i].phase != FAILED
    ensures var s := states[|events|];
            && Winner(s, winner) && HasTask(s.store, ws, id)
            && s.store.tasks[id].assigneeId == Some(s.txns[winner].actor)
            && forall i :: 0 <= i < |s.txns| && i != winner ==> Lost(s.txns[i], s.txns[winner].actor, Faulty(events))
  {
    var s := states[|events|];
    RunKeepsRace(states, events, |events|, ws, id, Faulty(events));
    RunKeepsTxns(states, events, |events|);
    winner := RaceOver(s, ws, id, Faulty(events));
  }

  lemma RaceOver(s: State, ws: WorkspaceId, id: TaskId, faults: bool) returns (winner: nat)
    requires RaceOk(s, ws, id, faults) && |s.txns| > 0
    requires forall i :: 0 <= i < |s.txns| ==> s.txns[i].phase.Finished?
    requires faults ==> exists i :: 0 <= i < |s.txns| && s.txns[i].phase != FAILED
    ensures Winner(s, winner) && s.store.tasks[id].assigneeId == Some(s.txns[winner].actor)
    ensures forall i :: 0 <= i < |s.txns| && i != winner ==> Lost(s.txns[i], s.txns[winner].actor, faults)
  {
    var k :| 0 <= k < |s.txns| && (faults ==> s.txns[k].phase != FAILED);
    assert s.txns[k].phase.Finished? && ClaimState(s.txns[k], s.store.tasks[id].assigneeId, faults);
    winner :| Winner(s, winner) && s.txns[winner].actor == s.store.tasks[id].assigneeId.value;
    forall i | 0 <= i < |s.txns| && i != winner ensures Lost(s.txns[i], s.txns[winner].actor, faults) {
      assert s.txns[i].phase.Finished? && !Winner(s, i);
    }
  }

  predicate Lost(t: Txn, holder: UserId, faults: bool) {
    (faults && t.phase == FAILED)
    || t.phase == Finished(if t.actor == holder then Committed(false) else Aborted(AssignmentConflict))
  }

  lemma {:induction false} RunKeepsTxns(states: seq<State>, events: seq<Event>, k: nat)
    requires IsRun(states, events) && k < |states|
    ensures |states[k].txns| == |states[0].txns|
    decreases k
  {
    if k > 0 { RunKeepsTxns(states, events, k - 1); }
  }
}
