/** Every finite set of requests finishes: some request can always move, and every move uses up bounded fuel. */
module ProtocolLiveness {
  import opened Wrappers
  import opened Schema
  import opened Protocol
  import opened ProtocolInvariant

  // ---------------------------------------------------------------- deadlock freedom

  /** The common lock order: membership rows by user id, then task rows by id. */
  predicate Above(a: Resource, b: Resource) {
    match (a, b)
    case (MemberLock(x), MemberLock(y)) => x.userId > y.userId
    case (TaskLock(x), TaskLock(y)) => x > y
    case (TaskLock(_), MemberLock(_)) => true
    case (MemberLock(_), TaskLock(_)) => false
  }

  function WaitsFor(st: Store, t: Txn): Option<Resource> {
    match NextMove(st, t)
    case Take(r, _) => Some(r)
    case Pass(r, _) => Some(r)
    case _ => None
  }

  /** A transaction only ever waits for a row above every row it holds. */
  lemma WaitsAboveHeld(st: Store, revived: set<TaskId>, t: Txn, held: Resource)
    requires TxnOk(st, revived, t) && WaitsFor(st, t).Some? && Holds(t, held)
    ensures Above(WaitsFor(st, t).value, held)
  {
    match t.phase
    case Locking(todo) => assert held.MemberLock? && held.key.userId < todo[0];
    case _ =>
  }

  predicate Unfinished(s: State, i: nat) {
    i < |s.txns| && !s.txns[i].phase.Finished?
  }

  /** The locked rows above the row transaction `i` waits for. */
  ghost function HigherLocks(s: State, i: nat): set<Resource>
    requires i < |s.txns|
  {
    match WaitsFor(s.store, s.txns[i])
    case None => {}
    case Some(r) => set x | x in s.locks && Above(x, r)
  }

  /** A blocked transaction waits for an unfinished one that is itself free or blocked strictly higher. */
  lemma BlockerIsHigher(s: State, i: nat) returns (j: nat)
    requires Inv(s) && Unfinished(s, i) && !Enabled(s, Run(i, 0))
    ensures Unfinished(s, j) && WaitsFor(s.store, s.txns[i]).Some?
    ensures WaitsFor(s.store, s.txns[i]).value in s.locks && s.locks[WaitsFor(s.store, s.txns[i]).value] == j
    ensures Enabled(s, Run(j, 0)) || HigherLocks(s, j) < HigherLocks(s, i)
  {
    NeverStuckAlone(s.store, s.revived, s.txns[i]);
    var r := WaitsFor(s.store, s.txns[i]).value;
    j := s.locks[r];
    assert Holds(s.txns[j], r);
    if s.txns[j].phase.Finished? { FinishedHoldsNothing(s.txns[j], r); }
    if !Enabled(s, Run(j, 0)) {
      NeverStuckAlone(s.store, s.revived, s.txns[j]);
      WaitsAboveHeld(s.store, s.revived, s.txns[j], r);
      var r' := WaitsFor(s.store, s.txns[j]).value;
      assert r' in HigherLocks(s, i) && r' !in HigherLocks(s, j);
    }
  }

  /** An unfinished transaction always has a next step of its own. */
  lemma NeverStuckAlone(st: Store, revived: set<TaskId>, t: Txn)
    requires TxnOk(st, revived, t) && !t.phase.Finished?
    ensures NextMove(st, t) != Rest
  {
  }

  /** Deadlock freedom: following the blockers of any unfinished request ends at one that can move. */
  lemma {:induction false} SomeoneCanMove(s: State, i: nat) returns (j: nat)
    requires Inv(s) && Unfinished(s, i)
    ensures Unfinished(s, j) && Enabled(s, Run(j, 0))
    decreases HigherLocks(s, i)
  {
    if Enabled(s, Run(i, 0)) {
      j := i;
    } else {
      j := BlockerIsHigher(s, i);
      if !Enabled(s, Run(j, 0)) { j := SomeoneCanMove(s, j); }
    }
  }

  // ---------------------------------------------------------------- termination

  function PendingCreate(t: Txn): nat {
    if t.op.CreateTask? && !t.phase.Finished? then 1 else 0
  }

  function PendingCreates(txns: seq<Txn>): nat {
    if txns == [] then 0 else PendingCreate(txns[0]) + PendingCreates(txns[1..])
  }

  /** No task id of the run reaches this bound. */
  function Horizon(s: State): nat {
    s.store.nextTaskId + PendingCreates(s.txns)
  }

  /** An upper bound on the remaining steps of one transaction when every task id is below `h`. */
  function Fuel(h: nat, t: Txn): int {
    match t.phase
    case Begin => h + 8
    case ReadTarget => 3
    case Locking(todo) => h + 4 + |todo|
    case LockingTask => 3
    case Deciding => 2
    case Scanning(cursor) => h - cursor + 2
    case Writing(_) => 2
    case Committing(_) => 1
    case Finished(_) => 0
  }

  function TotalFuel(h: nat, txns: seq<Txn>): int {
    if txns == [] then 0 else Fuel(h, txns[0]) + TotalFuel(h, txns[1..])
  }

  lemma {:induction false} TotalFuelUpdate(h: nat, txns: seq<Txn>, i: nat, t: Txn)
    requires i < |txns|
    ensures TotalFuel(h, txns[i := t]) == TotalFuel(h, txns) - Fuel(h, txns[i]) + Fuel(h, t)
    ensures PendingCreates(txns[i := t]) == PendingCreates(txns) - PendingCreate(txns[i]) + PendingCreate(t)
  {
    var txns' := txns[i := t];
    if i == 0 {
      assert txns'[1..] == txns[1..];
    } else {
      assert txns'[1..] == txns[1..][i - 1 := t];
      TotalFuelUpdate(h, txns[1..], i - 1, t);
    }
  }

  lemma {:induction false} TotalFuelNonNegative(s: State, h: nat, from: nat)
    requires Inv(s) && Horizon(s) <= h && from <= |s.txns|
    ensures 0 <= TotalFuel(h, s.txns[from..])
    decreases |s.txns| - from
  {
    if from < |s.txns| {
      TotalFuelNonNegative(s, h, from + 1);
      assert s.txns[from..][1..] == s.txns[from + 1..];
      assert TxnOk(s.store, s.revived, s.txns[from]);
    }
  }

  /** A step that does not commit leaves less fuel than before and keeps the request. */
  predicate Burns(h: nat, t: Txn, m: Move) {
    match m
    case Continue(n) => Fuel(h, n) < Fuel(h, t) && n.op == t.op
    case Take(_, n) => Fuel(h, n) < Fuel(h, t) && n.op == t.op
    case Pass(_, n) => Fuel(h, n) < Fuel(h, t) && n.op == t.op
    case _ => true
  }

  /** Each own step of a transaction burns fuel and keeps its request. */
  lemma MoveBurnsFuel(st: Store, revived: set<TaskId>, t: Txn, h: nat)
    requires Consistent(st) && TxnOk(st, revived, t) && st.nextTaskId <= h
    ensures Burns(h, t, NextMove(st, t))
  {
    match t.phase
    case Begin => AccessBurnsFuel(st, t, h);
    case ReadTarget => TargetReadBurnsFuel(st, t, h);
    case Locking(todo) => LockingBurnsFuel(st, t, h);
    case LockingTask => DecidingBurnsFuel(st, t, h);
    case Deciding => DecidingBurnsFuel(st, t, h);
    case Scanning(cursor) => ScanBurnsFuel(st, revived, t, h);
    case Writing(_) => WritingBurnsFuel(st, t, h);
    case _ =>
  }

  lemma AccessBurnsFuel(st: Store, t: Txn, h: nat)
    requires t.phase.Begin?
    ensures Burns(h, t, NextMove(st, t))
  {
  }

  lemma TargetReadBurnsFuel(st: Store, t: Txn, h: nat)
    requires t.phase.ReadTarget? && (t.op.AddMember? || t.op.UpdateRole?)
    ensures Burns(h, t, NextMove(st, t))
  {
  }

  lemma LockingBurnsFuel(st: Store, t: Txn, h: nat)
    requires t.phase.Locking? && (TaskOf(t.op).Some? || t.op.RemoveMember?)
    ensures Burns(h, t, NextMove(st, t))
  {
  }

  lemma DecidingBurnsFuel(st: Store, t: Txn, h: nat)
    requires (t.phase.LockingTask? || t.phase.Deciding?) && TaskOf(t.op).Some?
    ensures Burns(h, t, NextMove(st, t))
  {
  }

  lemma ScanBurnsFuel(st: Store, revived: set<TaskId>, t: Txn, h: nat)
    requires Consistent(st) && TxnOk(st, revived, t) && st.nextTaskId <= h && t.phase.Scanning?
    ensures Burns(h, t, NextMove(st, t))
  {
    var id := LeastFrom(OpenWork(st, t.ws, t.op.user), t.phase.cursor);
    if id.Some? { assert TaskConsistent(st, id.value); }
  }

  lemma WritingBurnsFuel(st: Store, t: Txn, h: nat)
    requires t.phase.Writing?
    ensures Burns(h, t, NextMove(st, t))
  {
  }

  /** One event: only the mover changes, it burns fuel, and it pays for a new task id with its pending creation. */
  predicate MoverBurns(s: State, e: Event, h: nat)
    requires Enabled(s, e)
  {
    && |Fire(s, e).txns| == |s.txns|
    && Fire(s, e).txns == s.txns[e.i := Fire(s, e).txns[e.i]]
    && Fuel(h, Fire(s, e).txns[e.i]) < Fuel(h, s.txns[e.i])
    && Fire(s, e).store.nextTaskId + PendingCreate(Fire(s, e).txns[e.i])
       <= s.store.nextTaskId + PendingCreate(s.txns[e.i])
  }

  lemma CommitBurnsFuel(s: State, e: Event, h: nat)
    requires Inv(s) && Enabled(s, e) && CommitOf(s, e).Some?
    ensures MoverBurns(s, e, h)
  {
    assert TxnOk(s.store, s.revived, s.txns[e.i]);
  }

  lemma FailBurnsFuel(s: State, e: Event, h: nat)
    requires Inv(s) && Enabled(s, e) && e.Fail? && s.store.nextTaskId <= h
    ensures MoverBurns(s, e, h)
  {
    assert TxnOk(s.store, s.revived, s.txns[e.i]);
  }

  lemma RunBurnsFuel(s: State, e: Event, h: nat)
    requires Inv(s) && Enabled(s, e) && e.Run? && CommitOf(s, e) == None && s.store.nextTaskId <= h
    ensures MoverBurns(s, e, h)
  {
    MoveBurnsFuel(s.store, s.revived, s.txns[e.i], h);
  }

  lemma MoverBurnsFuel(s: State, e: Event, h: nat)
    requires Inv(s) && Enabled(s, e) && s.store.nextTaskId <= h
    ensures MoverBurns(s, e, h)
  {
    if e.Fail? {
      FailBurnsFuel(s, e, h);
    } else if CommitOf(s, e) == None {
      RunBurnsFuel(s, e, h);
    } else {
      CommitBurnsFuel(s, e, h);
    }
  }

  lemma FireBurnsFuel(s: State, e: Event, h: nat)
    requires Inv(s) && Enabled(s, e) && Horizon(s) <= h
    ensures TotalFuel(h, Fire(s, e).txns) < TotalFuel(h, s.txns)
    ensures Horizon(Fire(s, e)) <= h
  {
    MoverBurnsFuel(s, e, h);
    TotalFuelUpdate(h, s.txns, e.i, Fire(s, e).txns[e.i]);
  }

  lemma StepBurnsFuel(states: seq<State>, events: seq<Event>, k: nat, h: nat)
    requires IsRun(states, events) && Inv(states[0]) && k < |events| && Horizon(states[k]) <= h
    ensures TotalFuel(h, states[k + 1].txns) < TotalFuel(h, states[k].txns)
    ensures Horizon(states[k + 1]) <= h
  {
    RunKeepsInv(states, events, k);
    FireBurnsFuel(states[k], events[k], h);
  }

  lemma StateHasFuel(s: State, h: nat)
    requires Inv(s) && Horizon(s) <= h
    ensures 0 <= TotalFuel(h, s.txns)
  {
    TotalFuelNonNegative(s, h, 0);
    assert s.txns[0..] == s.txns;
  }

  /** Termination: no schedule is longer than the initial fuel. */
  lemma {:induction false} RunsAreBounded(states: seq<State>, events: seq<Event>, k: nat, h: nat)
    requires IsRun(states, events) && Inv(states[0]) && Horizon(states[0]) <= h && k <= |events|
    ensures Horizon(states[k]) <= h
    ensures k + TotalFuel(h, states[k].txns) <= TotalFuel(h, states[0].txns)
    ensures k <= TotalFuel(h, states[0].txns)
    decreases k
  {
    if k > 0 {
      RunsAreBounded(states, events, k - 1, h);
      StepBurnsFuel(states, events, k - 1, h);
    }
    RunKeepsInv(states, events, k);
    StateHasFuel(states[k], h);
  }

  /** A run that cannot be extended has answered every request. */
  lemma MaximalRunsFinish(states: seq<State>, events: seq<Event>)
    requires IsRun(states, events) && Inv(states[0])
    requires forall i :: !Enabled(states[|events|], Run(i, 0))
    ensures forall i :: 0 <= i < |states[|events|].txns| ==> states[|events|].txns[i].phase.Finished?
    ensures states[|events|].locks == map[]
  {
    var s := states[|events|];
    RunKeepsInv(states, events, |events|);
    forall i | 0 <= i < |s.txns| ensures s.txns[i].phase.Finished? {
      if !s.txns[i].phase.Finished? { var j := SomeoneCanMove(s, i); }
    }
    forall r | r in s.locks ensures false { FinishedHoldsNothing(s.txns[s.locks[r]], r); }
  }
}
