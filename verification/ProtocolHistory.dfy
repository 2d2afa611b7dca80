/** Properties over whole runs that relate several commits of one task or one workspace. */
module ProtocolHistory {
  import opened Wrappers
  import opened Policies
  import opened Schema
  import opened Transactions
  import opened Protocol
  import opened ProtocolInvariant
  import opened ProtocolSafety

  // ---------------------------------------------------------------- finished tasks are frozen

  predicate IsDone(st: Store, id: TaskId) {
    id in st.tasks && st.tasks[id].status == Done
  }

  function AssigneeOf(st: Store, id: TaskId): Option<UserId> {
    if id in st.tasks then st.tasks[id].assigneeId else None
  }

  lemma FireFreezesDone(s: State, e: Event, id: TaskId)
    requires Inv(s) && Enabled(s, e)
    requires IsDone(s.store, id) && IsDone(Fire(s, e).store, id)
    ensures AssigneeOf(Fire(s, e).store, id) == AssigneeOf(s.store, id)
  {
    match CommitOf(s, e)
    case None => OnlyCommitsWrite(s, e);
    case Some(w) =>
      CommitEffect(s, e, w);
      assert TaskConsistent(s.store, id);
  }

  predicate StaysDone(states: seq<State>, from: nat, to: nat, id: TaskId)
    requires from <= to < |states|
  {
    forall m :: from <= m <= to ==> IsDone(states[m].store, id)
  }

  predicate KeepsAssignee(states: seq<State>, k: nat, id: TaskId)
    requires k + 1 < |states|
  {
    AssigneeOf(states[k + 1].store, id) == AssigneeOf(states[k].store, id)
  }

  lemma StepFreezesDone(states: seq<State>, events: seq<Event>, k: nat, id: TaskId)
    requires IsRun(states, events) && Inv(states[0]) && k < |events|
    requires IsDone(states[k].store, id) && IsDone(states[k + 1].store, id)
    ensures KeepsAssignee(states, k, id)
  {
    RunKeepsInv(states, events, k);
    FireFreezesDone(states[k], events[k], id);
  }

  lemma {:induction false} AssigneeChain(states: seq<State>, from: nat, to: nat, id: TaskId)
    requires from <= to < |states| && forall m :: from <= m < to ==> KeepsAssignee(states, m, id)
    ensures AssigneeOf(states[to].store, id) == AssigneeOf(states[from].store, id)
    decreases (to - from)
  {
    if from < to {
      AssigneeChain(states, from, to - 1, id);
      assert KeepsAssignee(states, to - 1, id);
    }
  }

  /** While a task stays DONE, no assignment, claim, release or member removal changes its assignee. */
  lemma DoneFreezesAssignee(states: seq<State>, events: seq<Event>, from: nat, to: nat, id: TaskId)
    requires IsRun(states, events) && Inv(states[0]) && from <= to < |states|
    requires StaysDone(states, from, to, id)
    ensures AssigneeOf(states[to].store, id) == AssigneeOf(states[from].store, id)
  {
    forall m | from <= m < to ensures KeepsAssignee(states, m, id) {
      assert IsDone(states[m].store, id) && IsDone(states[m + 1].store, id);
      StepFreezesDone(states, events, m, id);
    }
    AssigneeChain(states, from, to, id);
  }

  // ---------------------------------------------------------------- claims

  /** A MEMBER takes an unassigned task for itself. */
  predicate ClaimCommit(s: State, e: Event, id: TaskId)
    requires Enabled(s, e)
  {
    var t := s.txns[e.i];
    CommitOf(s, e) == Some(AssigneeWrite(id, Some(t.actor))) && t.actor in t.seen && t.seen[t.actor] == Member
  }

  /** A release or manager change to nobody, or the removal of the holder. */
  predicate VacateCommit(s: State, e: Event, id: TaskId)
    requires Enabled(s, e)
  {
    var w := CommitOf(s, e);
    w == Some(AssigneeWrite(id, None)) || (w.Some? && w.value.RemovalWrite? && id in w.value.cleared)
  }

  lemma ClaimStep(s: State, e: Event, id: TaskId)
    requires Inv(s) && Enabled(s, e) && ClaimCommit(s, e, id)
    ensures id in s.store.tasks && s.store.tasks[id].assigneeId == None
    ensures id in Fire(s, e).store.tasks && Fire(s, e).store.tasks[id].assigneeId == Some(s.txns[e.i].actor)
  {
    CommitEffect(s, e, CommitOf(s, e).value);
  }

  lemma WriteVacates(st: Store, revived: set<TaskId>, t: Txn, w: Write, now: Time, id: TaskId)
    requires Consistent(st) && TxnOk(st, revived, t) && t.phase == Committing(w)
    requires id in Apply(st, t.ws, t.actor, w, now).tasks && id < st.nextTaskId
    ensures id in st.tasks
    ensures st.tasks[id].assigneeId.Some? && Apply(st, t.ws, t.actor, w, now).tasks[id].assigneeId == None ==>
              w == AssigneeWrite(id, None) || (w.RemovalWrite? && id in w.cleared)
  {
  }

  lemma VacateStep(s: State, e: Event, id: TaskId)
    requires Inv(s) && Enabled(s, e) && id in Fire(s, e).store.tasks && id < s.store.nextTaskId
    ensures id in s.store.tasks
    ensures s.store.tasks[id].assigneeId.Some? && Fire(s, e).store.tasks[id].assigneeId == None
            ==> VacateCommit(s, e, id)
  {
    match CommitOf(s, e)
    case None => OnlyCommitsWrite(s, e);
    case Some(w) =>
      CommitEffect(s, e, w);
      WriteVacates(s.store, s.revived, s.txns[e.i], w, e.now, id);
  }

  /** An id is never handed out twice, so a task that exists later existed all along. */
  lemma {:induction false} TaskPersists(states: seq<State>, events: seq<Event>, from: nat, to: nat, id: TaskId)
    requires IsRun(states, events) && Inv(states[0]) && from <= to < |states|
    requires id < states[from].store.nextTaskId && id in states[to].store.tasks
    ensures id in states[from].store.tasks
    decreases |states| - from
  {
    if from < to {
      RunKeepsInv(states, events, from);
      NextTaskIdGrows(states[from], events[from]);
      TaskPersists(states, events, from + 1, to, id);
      VacateStep(states[from], events[from], id);
    }
  }

  lemma NextTaskIdGrows(s: State, e: Event)
    requires Inv(s) && Enabled(s, e)
    ensures s.store.nextTaskId <= Fire(s, e).store.nextTaskId
  {
    match CommitOf(s, e)
    case None => OnlyCommitsWrite(s, e);
    case Some(w) => CommitEffect(s, e, w);
  }

  lemma {:induction false} VacatedBetween(states: seq<State>, events: seq<Event>, from: nat, to: nat, id: TaskId)
    returns (m: nat)
    requires IsRun(states, events) && Inv(states[0]) && from <= to < |states|
    requires id in states[from].store.tasks && states[from].store.tasks[id].assigneeId.Some?
    requires id in states[to].store.tasks && states[to].store.tasks[id].assigneeId.None?
    ensures from <= m < to && VacateCommit(states[m], events[m], id)
    decreases |states| - from
  {
    RunKeepsInv(states, events, from);
    assert TaskConsistent(states[from].store, id);
    NextTaskIdGrows(states[from], events[from]);
    TaskPersists(states, events, from + 1, to, id);
    VacateStep(states[from], events[from], id);
    if states[from + 1].store.tasks[id].assigneeId.None? {
      m := from;
    } else {
      m := VacatedBetween(states, events, from + 1, to, id);
    }
  }

  /** Between two successful claims of one task somebody gave it up or was removed. */
  lemma ClaimsAreSeparated(states: seq<State>, events: seq<Event>, j: nat, k: nat, id: TaskId) returns (m: nat)
    requires IsRun(states, events) && Inv(states[0]) && j < k < |events|
    requires ClaimCommit(states[j], events[j], id) && ClaimCommit(states[k], events[k], id)
    ensures j < m < k && VacateCommit(states[m], events[m], id)
  {
    RunKeepsInv(states, events, j);
    RunKeepsInv(states, events, k);
    ClaimStep(states[j], events[j], id);
    ClaimStep(states[k], events[k], id);
    m := VacatedBetween(states, events, j + 1, k, id);
  }

  // ---------------------------------------------------------------- ownership

  /** Exactly one OWNER membership, and it is the creator's. */
  ghost predicate SoleOwner(st: Store, ws: WorkspaceId) {
    ws in st.workspaces && forall u :: OwnsWorkspace(st, ws, u) <==> u == st.workspaces[ws].createdById
  }

  lemma FireKeepsOwners(s: State, e: Event, ws: WorkspaceId)
    requires Inv(s) && Enabled(s, e)
    ensures ws in s.store.workspaces ==>
              ws in Fire(s, e).store.workspaces
              && Fire(s, e).store.workspaces[ws] == s.store.workspaces[ws]
              && forall u :: OwnsWorkspace(s.store, ws, u) <==> OwnsWorkspace(Fire(s, e).store, ws, u)
    ensures ws !in s.store.workspaces && ws in Fire(s, e).store.workspaces ==> SoleOwner(Fire(s, e).store, ws)
  {
    match CommitOf(s, e)
    case None => OnlyCommitsWrite(s, e);
    case Some(w) =>
      CommitEffect(s, e, w);
      var t := s.txns[e.i];
      CommitFootprint(s.store, s.revived, t, w, e.now);
      if ws !in s.store.workspaces && ws in Fire(s, e).store.workspaces {
        forall u ensures OwnsWorkspace(Fire(s, e).store, ws, u) <==> u == t.actor {
          assert MemberKey(ws, u) !in s.store.members;
        }
      }
  }

  /** The workspace row and its OWNER memberships are the same in both stores. */
  ghost predicate SameOwners(st: Store, st': Store, ws: WorkspaceId) {
    && ws in st.workspaces && ws in st'.workspaces && st'.workspaces[ws] == st.workspaces[ws]
    && forall u :: OwnsWorkspace(st, ws, u) <==> OwnsWorkspace(st', ws, u)
  }

  lemma StepKeepsOwners(states: seq<State>, events: seq<Event>, k: nat, ws: WorkspaceId)
    requires IsRun(states, events) && Inv(states[0]) && k < |events| && ws in states[k].store.workspaces
    ensures SameOwners(states[k].store, states[k + 1].store, ws)
  {
    RunKeepsInv(states, events, k);
    FireKeepsOwners(states[k], events[k], ws);
  }

  /** Nobody ever gains, loses or passes on the OWNER membership of an existing workspace. */
  lemma {:induction false} OwnersNeverChange(states: seq<State>, events: seq<Event>, k: nat, ws: WorkspaceId)
    requires IsRun(states, events) && Inv(states[0]) && k < |states| && ws in states[0].store.workspaces
    ensures SameOwners(states[0].store, states[k].store, ws)
    decreases k
  {
    if k > 0 {
      OwnersNeverChange(states, events, k - 1, ws);
      StepKeepsOwners(states, events, k - 1, ws);
    }
  }

  /** Single owner: every workspace created through the API has exactly its creator as OWNER, in every state. */
  lemma {:induction false} SingleOwner(states: seq<State>, events: seq<Event>, k: nat, ws: WorkspaceId)
    requires IsRun(states, events) && Inv(states[0]) && k < |states| && ws in states[k].store.workspaces
    requires ws in states[0].store.workspaces ==> SoleOwner(states[0].store, ws)
    ensures SoleOwner(states[k].store, ws)
    decreases k
  {
    if k > 0 {
      RunKeepsInv(states, events, k - 1);
      FireKeepsOwners(states[k - 1], events[k - 1], ws);
      if ws in states[k - 1].store.workspaces { SingleOwner(states, events, k - 1, ws); }
    }
  }

  // ---------------------------------------------------------------- privileges

  predicate Privileged(st: Store, ws: WorkspaceId, u: UserId) {
    IsMember(st, ws, u) && st.members[MemberKey(ws, u)].role != Member
  }

  /** The event is not a step of a request by an OWNER of `ws` in that workspace. */
  predicate NoOwnerActs(s: State, e: Event, ws: WorkspaceId)
    requires Enabled(s, e)
  {
    s.txns[e.i].ws == ws && ForWorkspace(s.txns[e.i].op) ==> !OwnsWorkspace(s.store, ws, s.txns[e.i].actor)
  }

  lemma FireKeepsPrivileges(s: State, e: Event, ws: WorkspaceId, u: UserId)
    requires Inv(s) && Enabled(s, e) && ws in s.store.workspaces && NoOwnerActs(s, e, ws)
    ensures Privileged(s.store, ws, u) <==> Privileged(Fire(s, e).store, ws, u)
  {
    match CommitOf(s, e)
    case None => OnlyCommitsWrite(s, e);
    case Some(w) => CommitEffect(s, e, w);
  }

  /** Whatever ADMINs and MEMBERs do, and however their requests interleave, without an OWNER request the OWNER and
      ADMIN memberships of a workspace stay as they are. */
  lemma {:induction false} PrivilegesStable(states: seq<State>, events: seq<Event>, k: nat, ws: WorkspaceId, u: UserId)
    requires IsRun(states, events) && Inv(states[0]) && k < |states| && ws in states[0].store.workspaces
    requires forall j :: 0 <= j < k ==> NoOwnerActs(states[j], events[j], ws)
    ensures Privileged(states[0].store, ws, u) <==> Privileged(states[k].store, ws, u)
    decreases k
  {
    if k > 0 {
      PrivilegesStable(states, events, k - 1, ws, u);
      RunKeepsInv(states, events, k - 1);
      OwnersNeverChange(states, events, k - 1, ws);
      FireKeepsPrivileges(states[k - 1], events[k - 1], ws, u);
    }
  }

  // ---------------------------------------------------------------- progress of one task

  function Rank(status: Status): nat {
    match status
    case Todo => 0
    case InProgress => 1
    case Done => 2
  }

  /** The event changes the status of `id`, with the actor's locked role as given. */
  predicate StatusCommit(s: State, e: Event, id: TaskId, byManager: bool) {
    && Enabled(s, e)
    && var w := CommitOf(s, e);
       var t := s.txns[e.i];
       && w.Some? && w.value.StatusWrite? && w.value.id == id
       && t.actor in t.seen && IsManager(t.seen[t.actor]) == byManager
  }

  function StatusCommits(states: seq<State>, events: seq<Event>, k: nat, id: TaskId, byManager: bool): nat
    requires k <= |events| < |states|
    decreases k
  {
    if k == 0 then 0
    else StatusCommits(states, events, k - 1, id, byManager)
         + if StatusCommit(states[k - 1], events[k - 1], id, byManager) then 1 else 0
  }

  lemma WriteMovesRank(st: Store, revived: set<TaskId>, t: Txn, w: Write, now: Time, id: TaskId)
    requires Consistent(st) && TxnOk(st, revived, t) && t.phase == Committing(w)
    requires id in Apply(st, t.ws, t.actor, w, now).tasks
    ensures var status := Apply(st, t.ws, t.actor, w, now).tasks[id].status;
            if id !in st.tasks then id == st.nextTaskId && status == Todo && w.TaskInsert?
            else if !w.StatusWrite? || w.id != id then status == st.tasks[id].status
            else t.actor in t.seen && (IsManager(t.seen[t.actor]) || Rank(status) == Rank(st.tasks[id].status) + 1)
  {
    if id in st.tasks { assert TaskConsistent(st, id); }
  }

  /** A MEMBER moves a task up by one, a manager anywhere, and nothing else touches its status. */
  lemma RankStep(s: State, e: Event, id: TaskId)
    requires Inv(s) && Enabled(s, e) && id in Fire(s, e).store.tasks
    ensures !(StatusCommit(s, e, id, true) && StatusCommit(s, e, id, false))
    ensures id in s.store.tasks && StatusCommit(s, e, id, false) ==>
              Rank(Fire(s, e).store.tasks[id].status) == Rank(s.store.tasks[id].status) + 1
    ensures id in s.store.tasks && !StatusCommit(s, e, id, false) && !StatusCommit(s, e, id, true) ==>
              Fire(s, e).store.tasks[id].status == s.store.tasks[id].status
    ensures id !in s.store.tasks ==>
              id == s.store.nextTaskId && Fire(s, e).store.tasks[id].status == Todo
              && !StatusCommit(s, e, id, false) && !StatusCommit(s, e, id, true)
  {
    match CommitOf(s, e)
    case None => OnlyCommitsWrite(s, e);
    case Some(w) =>
      CommitEffect(s, e, w);
      WriteMovesRank(s.store, s.revived, s.txns[e.i], w, e.now, id);
  }

  /** A status commit acts on an existing task and leaves it existing. */
  lemma StatusCommitExists(s: State, e: Event, id: TaskId, byManager: bool)
    requires Inv(s) && Enabled(s, e) && StatusCommit(s, e, id, byManager)
    ensures id in s.store.tasks && id in Fire(s, e).store.tasks && id < s.store.nextTaskId
  {
    CommitEffect(s, e, CommitOf(s, e).value);
    assert TaskConsistent(s.store, id);
  }

  /** No status commit concerns an id that is not handed out yet. */
  lemma NoCommitStep(s: State, e: Event, id: TaskId, byManager: bool)
    requires Inv(s) && Enabled(s, e) && id >= Fire(s, e).store.nextTaskId
    ensures id >= s.store.nextTaskId && !StatusCommit(s, e, id, byManager)
  {
    NextTaskIdGrows(s, e);
    if StatusCommit(s, e, id, byManager) { StatusCommitExists(s, e, id, byManager); }
  }

  lemma RunNoCommitStep(states: seq<State>, events: seq<Event>, k: nat, id: TaskId, byManager: bool)
    requires IsRun(states, events) && Inv(states[0]) && k < |events| && id >= states[k + 1].store.nextTaskId
    ensures id >= states[k].store.nextTaskId && !StatusCommit(states[k], events[k], id, byManager)
  {
    RunKeepsInv(states, events, k);
    NoCommitStep(states[k], events[k], id, byManager);
  }

  predicate CounterGrows(states: seq<State>, k: nat)
    requires k + 1 < |states|
  {
    states[k].store.nextTaskId <= states[k + 1].store.nextTaskId
  }

  lemma {:induction false} CounterChain(states: seq<State>, j: nat, k: nat)
    requires j <= k < |states| && forall m :: j <= m < k ==> CounterGrows(states, m)
    ensures states[j].store.nextTaskId <= states[k].store.nextTaskId
    decreases k
  {
    if j < k {
      CounterChain(states, j, k - 1);
      assert CounterGrows(states, k - 1);
    }
  }

  /** An id that is not handed out yet never was before. */
  lemma UnusedIdWasUnused(states: seq<State>, events: seq<Event>, j: nat, k: nat, id: TaskId)
    requires IsRun(states, events) && Inv(states[0]) && j <= k < |states| && id >= states[k].store.nextTaskId
    ensures id >= states[j].store.nextTaskId
  {
    forall m | j <= m < k ensures CounterGrows(states, m) {
      RunKeepsInv(states, events, m);
      NextTaskIdGrows(states[m], events[m]);
    }
    CounterChain(states, j, k);
  }

  lemma {:induction false} NothingCounted(states: seq<State>, events: seq<Event>, k: nat, id: TaskId, byManager: bool)
    requires k <= |events| < |states|
    requires forall m :: 0 <= m < k ==> !StatusCommit(states[m], events[m], id, byManager)
    ensures StatusCommits(states, events, k, id, byManager) == 0
    decreases k
  {
    if k > 0 { NothingCounted(states, events, k - 1, id, byManager); }
  }

  lemma NoCommitsBeforeCreation(states: seq<State>, events: seq<Event>, k: nat, id: TaskId, byManager: bool)
    requires IsRun(states, events) && Inv(states[0]) && k <= |events| && id >= states[k].store.nextTaskId
    ensures StatusCommits(states, events, k, id, byManager) == 0
  {
    forall m | 0 <= m < k ensures !StatusCommit(states[m], events[m], id, byManager) {
      UnusedIdWasUnused(states, events, m + 1, k, id);
      RunNoCommitStep(states, events, m, id, byManager);
    }
    NothingCounted(states, events, k, id, byManager);
  }

  /** Member changes so far, plus the steps left to DONE, are covered by the manager changes. */
  ghost predicate Covered(states: seq<State>, events: seq<Event>, k: nat, id: TaskId)
    requires IsRun(states, events) && k <= |events|
  {
    var members := StatusCommits(states, events, k, id, false);
    var managers := StatusCommits(states, events, k, id, true);
    && members <= 2 * (1 + managers)
    && (id in states[k].store.tasks ==> members + 2 - Rank(states[k].store.tasks[id].status) <= 2 * (1 + managers))
  }

  lemma ProgressStep(states: seq<State>, events: seq<Event>, k: nat, id: TaskId)
    requires IsRun(states, events) && Inv(states[0]) && k < |events| && Covered(states, events, k, id)
    ensures Covered(states, events, k + 1, id)
  {
    var s, e := states[k], events[k];
    RunKeepsInv(states, events, k);
    if id in states[k + 1].store.tasks {
      RankStep(s, e, id);
      if id !in s.store.tasks { NoCommitsBeforeCreation(states, events, k, id, false); }
    } else {
      if StatusCommit(s, e, id, false) { StatusCommitExists(s, e, id, false); }
      if StatusCommit(s, e, id, true) { StatusCommitExists(s, e, id, true); }
    }
  }

  lemma {:induction false} ProgressPotential(states: seq<State>, events: seq<Event>, k: nat, id: TaskId)
    requires IsRun(states, events) && Inv(states[0]) && k <= |events|
    ensures Covered(states, events, k, id)
    decreases k
  {
    if k > 0 {
      ProgressPotential(states, events, k - 1, id);
      ProgressStep(states, events, k - 1, id);
    }
  }

  /** Members can make at most two status changes per manager status change, plus the first two. */
  lemma MemberProgressBound(states: seq<State>, events: seq<Event>, id: TaskId)
    requires IsRun(states, events) && Inv(states[0])
    ensures StatusCommits(states, events, |events|, id, false)
         <= 2 * (1 + StatusCommits(states, events, |events|, id, true))
  {
    ProgressPotential(states, events, |events|, id);
  }

  /** Between manager changes the status of a task never falls. */
  lemma {:induction false} RankNeverFalls(states: seq<State>, events: seq<Event>, from: nat, to: nat, id: TaskId)
    requires IsRun(states, events) && Inv(states[0]) && from <= to < |states|
    requires id in states[from].store.tasks && id in states[to].store.tasks
    requires forall j :: from <= j < to ==> !StatusCommit(states[j], events[j], id, true)
    ensures Rank(states[from].store.tasks[id].status) <= Rank(states[to].store.tasks[id].status)
    decreases |states| - from
  {
    if from < to {
      RunKeepsInv(states, events, from);
      assert TaskConsistent(states[from].store, id);
      NextTaskIdGrows(states[from], events[from]);
      TaskPersists(states, events, from + 1, to, id);
      RankStep(states[from], events[from], id);
      RankNeverFalls(states, events, from + 1, to, id);
    }
  }
}
