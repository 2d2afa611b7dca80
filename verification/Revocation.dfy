/** Revocation: a request that begins, or re-checks under lock, after a committed removal of its actor and before the
    actor is added again, never commits anything in that workspace. */
module Revocation {
  import opened Policies
  import opened Schema
  import opened Protocol
  import opened ProtocolInvariant
  import opened ProtocolSafety

  /** The request has not passed a membership check that still counts: it has not begun, or its locking read of the
      actor's row is still ahead or found nothing, or it was refused. */
  predicate NotAdmitted(t: Txn) {
    || t.phase.Begin?
    || (TaskOf(t.op).Some? && t.phase.Locking? && t.actor !in t.seen)
    || (t.phase.Finished? && t.phase.result.Aborted?)
  }

  lemma OutsiderMove(st: Store, t: Txn)
    requires NotAdmitted(t) && ForWorkspace(t.op) && !IsMember(st, t.ws, t.actor)
    ensures match NextMove(st, t)
            case Continue(n) => StillOut(t, n)
            case Take(_, n) => StillOut(t, n)
            case Pass(_, n) => StillOut(t, n)
            case Commit(_) => false
            case Rest => true
  {
  }

  predicate StillOut(t: Txn, n: Txn) {
    NotAdmitted(n) && n.ws == t.ws && n.actor == t.actor && n.op == t.op
  }

  lemma OutsiderStep(s: State, e: Event, i: nat)
    requires Enabled(s, e) && i < |s.txns| && NotAdmitted(s.txns[i]) && ForWorkspace(s.txns[i].op)
    requires !IsMember(s.store, s.txns[i].ws, s.txns[i].actor)
    ensures i < |Fire(s, e).txns| && StillOut(s.txns[i], Fire(s, e).txns[i])
    ensures e.i == i ==> CommitOf(s, e).None?
  {
    OutsiderMove(s.store, s.txns[i]);
  }

  predicate Adds(s: State, e: Event, ws: WorkspaceId, u: UserId)
    requires Enabled(s, e)
  {
    CommitOf(s, e).Some? && CommitOf(s, e).value.MemberWrite? && CommitOf(s, e).value.user == u && s.txns[e.i].ws == ws
  }

  /** Only a committed addition makes a user a member of an existing workspace. */
  lemma StaysOutside(s: State, e: Event, ws: WorkspaceId, u: UserId)
    requires Inv(s) && Enabled(s, e) && ws < s.store.nextWorkspaceId && !IsMember(s.store, ws, u) && !Adds(s, e, ws, u)
    ensures !IsMember(Fire(s, e).store, ws, u) && ws < Fire(s, e).store.nextWorkspaceId
  {
    match CommitOf(s, e)
    case None => OnlyCommitsWrite(s, e);
    case Some(w) => CommitEffect(s, e, w);
  }

  ghost predicate NotAddedBetween(states: seq<State>, events: seq<Event>, r: nat, k: nat, ws: WorkspaceId, u: UserId)
    requires IsRun(states, events) && k < |states|
  {
    forall m :: r < m < k ==> !Adds(states[m], events[m], ws, u)
  }

  predicate Removes(s: State, e: Event, ws: WorkspaceId, u: UserId)
    requires Enabled(s, e)
  {
    CommitOf(s, e).Some? && CommitOf(s, e).value.RemovalWrite? && CommitOf(s, e).value.user == u && s.txns[e.i].ws == ws
  }

  lemma RemovalPutsOutside(s: State, e: Event, ws: WorkspaceId, u: UserId)
    requires Inv(s) && Enabled(s, e) && Removes(s, e, ws, u)
    ensures !IsMember(Fire(s, e).store, ws, u) && ws < Fire(s, e).store.nextWorkspaceId
  {
    CommitEffect(s, e, CommitOf(s, e).value);
  }

  /** `u` was removed from `ws` at event `r` and has not been added again before event `k`. */
  ghost predicate RemovedSince(states: seq<State>, events: seq<Event>, r: nat, k: nat, ws: WorkspaceId, u: UserId)
    requires IsRun(states, events) && k < |states|
  {
    r < k && Removes(states[r], events[r], ws, u) && NotAddedBetween(states, events, r, k, ws, u)
  }

  lemma {:induction false} RemovedStaysOutside(
    states: seq<State>, events: seq<Event>, r: nat, k: nat, ws: WorkspaceId, u: UserId)
    requires IsRun(states, events) && Inv(states[0]) && k < |states| && RemovedSince(states, events, r, k, ws, u)
    ensures !IsMember(states[k].store, ws, u) && ws < states[k].store.nextWorkspaceId
    decreases k
  {
    RunKeepsInv(states, events, k - 1);
    if r == k - 1 {
      RemovalPutsOutside(states[r], events[r], ws, u);
    } else {
      RemovedStaysOutside(states, events, r, k - 1, ws, u);
      StaysOutside(states[k - 1], events[k - 1], ws, u);
    }
  }

  lemma {:induction false} StaysNotAdmitted(
    states: seq<State>, events: seq<Event>, from: nat, k: nat, i: nat, t: Txn)
    requires IsRun(states, events) && from <= k < |states| && ForWorkspace(t.op)
    requires i < |states[from].txns| && StillOut(t, states[from].txns[i])
    requires forall m :: from <= m < k ==> !IsMember(states[m].store, t.ws, t.actor)
    ensures i < |states[k].txns| && StillOut(t, states[k].txns[i])
    decreases k
  {
    if from < k {
      StaysNotAdmitted(states, events, from, k - 1, i, t);
      OutsiderStep(states[k - 1], events[k - 1], i);
    }
  }

  /** Its actor removed at event `r`, request `i` not admitted in a later state `from`, the actor not added again before
      event `k`: the request commits nothing at event `k`. */
  lemma RevokedNeverCommits(states: seq<State>, events: seq<Event>, r: nat, from: nat, k: nat, i: nat)
    requires IsRun(states, events) && Inv(states[0]) && r < from <= k < |events| && i < |states[from].txns|
    requires NotAdmitted(states[from].txns[i]) && ForWorkspace(states[from].txns[i].op)
    requires RemovedSince(states, events, r, k, states[from].txns[i].ws, states[from].txns[i].actor)
    requires events[k].i == i
    ensures CommitOf(states[k], events[k]).None?
  {
    var t := states[from].txns[i];
    forall m | from <= m <= k ensures !IsMember(states[m].store, t.ws, t.actor) {
      assert RemovedSince(states, events, r, m, t.ws, t.actor);
      RemovedStaysOutside(states, events, r, m, t.ws, t.actor);
    }
    StaysNotAdmitted(states, events, from, k, i, t);
    OutsiderStep(states[k], events[k], i);
  }
}
