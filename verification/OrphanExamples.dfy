/** Two ways into an orphan, as concrete steps: reopening after a removal, and reopening behind the scan of a removal
    that is still in progress. */
module OrphanExamples {
  import opened Wrappers
  import opened Policies
  import opened Schema
  import opened Transactions
  import opened Protocol
  import opened UnfinishedWork

  /** Workspace 1 of owner 1 with member 2, who finished task 5. */
  function Example(): Store {
    Store(map[1 := "ann", 2 := "bob"], map[1 := Workspace("w", 1, 0, 0)],
          map[MemberKey(1, 1) := Membership(Owner, 0, 0), MemberKey(1, 2) := Membership(Member, 0, 0)],
          map[5 := Task("t", None, 1, 1, 1, Some(2), Done, 0, 0)], 3, 2, 6)
  }

  lemma ExampleIsClean()
    ensures Consistent(Example()) && (forall t :: !Orphan(Example(), t)) && OpenWork(Example(), 1, 2) == {}
  {
    var st := Example();
    assert MemberKey(1, 1) in st.members && MemberKey(1, 2) in st.members;
    assert forall t :: t in st.tasks ==> t == 5;
  }

  /** The unqualified claim is false: remove the assignee of a finished task, then reopen it. */
  lemma ReopenedTaskCanBeOrphan()
    ensures exists st, st1, st2 ::
              Consistent(st) && !Orphan(st, 5)
              && AtomicRemove(st, 1, 1, Owner, 2, {}, 10) == Accepted(st1)
              && AtomicStatus(st1, 1, 1, 5, Todo, 11) == Accepted(st2)
              && Orphan(st2, 5)
  {
    ExampleIsClean();
    var st := Example();
    var st1 := AtomicRemove(st, 1, 1, Owner, 2, {}, 10).store;
    assert MemberKey(1, 1) in st1.members && MemberKey(1, 2) !in st1.members;
    assert st1.tasks[5] == st.tasks[5];
    var st2 := AtomicStatus(st1, 1, 1, 5, Todo, 11).store;
    assert Orphan(st2, 5);
  }

  // ---------------------------------------------------------------- behind the scan

  lemma Extended(states: seq<State>, events: seq<Event>, e: Event, next: State)
    requires IsRun(states, events) && Enabled(states[|events|], e) && next == Fire(states[|events|], e)
    ensures IsRun(states + [next], events + [e])
  {
  }

  /** One scheduled step of request `i` that commits nothing and raises no flag. */
  lemma Moved(states: seq<State>, events: seq<Event>, i: nat, n: Txn, gained: Option<Resource>)
    returns (states': seq<State>, events': seq<Event>)
    requires IsRun(states, events)
    requires var s := states[|events|];
             && s.revived == {} && i < |s.txns| && !s.txns[i].phase.Finished? && !n.phase.Finished?
             && NextMove(s.store, s.txns[i]) == (if gained.Some? then Take(gained.value, n) else Continue(n))
             && (gained.Some? ==> gained.value !in s.locks)
    ensures IsRun(states', events') && states'[0] == states[0] && |events'| == |events| + 1
    ensures states'[|events'|] == states[|events|].(txns := states[|events|].txns[i := n],
                                                   locks := Granted(states[|events|].locks, gained, i))
  {
    var s := states[|events|];
    assert StepState(s, i, n, gained).revived == {};
    Extended(states, events, Run(i, 0), StepState(s, i, n, gained));
    states', events' := states + [StepState(s, i, n, gained)], events + [Run(i, 0)];
  }

  function Remover(phase: Phase, seen: map<UserId, Role>): Txn {
    Txn(1, 1, RemoveMember(2), phase, Owner, seen, None, {})
  }

  function Reopener(phase: Phase, seen: map<UserId, Role>, row: Option<Task>): Txn {
    Txn(1, 1, SetStatus(5, Todo), phase, Owner, seen, row, {})
  }

  const TARGET := MemberLock(MemberKey(1, 2))

  const ACTOR := MemberLock(MemberKey(1, 1))

  function Start(): State {
    State(Example(), map[], [Request(1, 1, RemoveMember(2)), Request(1, 1, SetStatus(5, Todo))], {})
  }

  /** The removal has visited every task, found nothing to clear, and is about to commit. */
  function Scanned(): State {
    State(Example(), map[TARGET := 0],
          [Remover(Committing(RemovalWrite(2, {})), map[2 := Member]), Request(1, 1, SetStatus(5, Todo))], {})
  }

  /** Then the reopening has locked its rows and is about to commit as well. */
  function BothReady(): State {
    var reopener := Reopener(Committing(StatusWrite(5, Todo)), map[1 := Owner], Some(Example().tasks[5]));
    State(Example(), map[TARGET := 0, ACTOR := 1, TaskLock(5) := 1],
          [Remover(Committing(RemovalWrite(2, {})), map[2 := Member]), reopener], {})
  }

  lemma RemoverMoves()
    ensures var st := Example();
            && NextMove(st, Request(1, 1, RemoveMember(2))) == Continue(Remover(Locking([2]), map[]))
            && NextMove(st, Remover(Locking([2]), map[])) == Take(TARGET, Remover(Locking([]), map[2 := Member]))
            && NextMove(st, Remover(Locking([]), map[2 := Member])) == Continue(Remover(Scanning(0), map[2 := Member]))
            && NextMove(st, Remover(Scanning(0), map[2 := Member]))
               == Continue(Remover(Committing(RemovalWrite(2, {})), map[2 := Member]))
  {
    ExampleIsClean();
    assert LeastFrom(OpenWork(Example(), 1, 2), 0) == None;
    var todo: seq<UserId> := [2];
    assert todo[1..] == [];
  }

  lemma ReopenerMoves()
    ensures var st, row, seen := Example(), Some(Example().tasks[5]), map[1 := Owner];
            && NextMove(st, Request(1, 1, SetStatus(5, Todo))) == Continue(Reopener(Locking([1]), map[], None))
            && NextMove(st, Reopener(Locking([1]), map[], None)) == Take(ACTOR, Reopener(Locking([]), seen, None))
            && NextMove(st, Reopener(Locking([]), seen, None)) == Continue(Reopener(LockingTask, seen, None))
            && NextMove(st, Reopener(LockingTask, seen, None)) == Take(TaskLock(5), Reopener(Deciding, seen, row))
            && NextMove(st, Reopener(Deciding, seen, row))
               == Continue(Reopener(Committing(StatusWrite(5, Todo)), seen, row))
  {
    var todo: seq<UserId> := [1];
    assert todo[1..] == [];
  }

  lemma RemovalScans() returns (states: seq<State>, events: seq<Event>)
    ensures IsRun(states, events) && states[0] == Start() && states[|events|] == Scanned()
  {
    RemoverMoves();
    states, events := [Start()], [];
    states, events := Moved(states, events, 0, Remover(Locking([2]), map[]), None);
    states, events := Moved(states, events, 0, Remover(Locking([]), map[2 := Member]), Some(TARGET));
    states, events := Moved(states, events, 0, Remover(Scanning(0), map[2 := Member]), None);
    states, events := Moved(states, events, 0, Remover(Committing(RemovalWrite(2, {})), map[2 := Member]), None);
  }

  /** In between: the reopening has locked its actor's membership. */
  function ActorLocked(): State {
    State(Example(), map[TARGET := 0, ACTOR := 1],
          [Remover(Committing(RemovalWrite(2, {})), map[2 := Member]), Reopener(Locking([]), map[1 := Owner], None)],
          {})
  }

  lemma ReopenerLocksActor(states: seq<State>, events: seq<Event>) returns (states': seq<State>, events': seq<Event>)
    requires IsRun(states, events) && states[|events|] == Scanned()
    ensures IsRun(states', events') && states'[0] == states[0] && states'[|events'|] == ActorLocked()
  {
    ReopenerMoves();
    states', events' := Moved(states, events, 1, Reopener(Locking([1]), map[], None), None);
    states', events' := Moved(states', events', 1, Reopener(Locking([]), map[1 := Owner], None), Some(ACTOR));
  }

  lemma ReopenerLocksTask(states: seq<State>, events: seq<Event>) returns (states': seq<State>, events': seq<Event>)
    requires IsRun(states, events) && states[|events|] == ActorLocked()
    ensures IsRun(states', events') && states'[0] == states[0] && states'[|events'|] == BothReady()
  {
    ReopenerMoves();
    var row, seen := Some(Example().tasks[5]), map[1 := Owner];
    states', events' := Moved(states, events, 1, Reopener(LockingTask, seen, None), None);
    states', events' := Moved(states', events', 1, Reopener(Deciding, seen, row), Some(TaskLock(5)));
    states', events' := Moved(states', events', 1, Reopener(Committing(StatusWrite(5, Todo)), seen, row), None);
  }

  /** The two commits: first the reopening, then the removal. */
  lemma BothCommit(s1: State, s2: State)
    requires s1 == CommitState(BothReady(), 1, StatusWrite(5, Todo), 0)
    requires s2 == CommitState(s1, 0, RemovalWrite(2, {}), 0)
    ensures Enabled(BothReady(), Run(1, 0)) && s1 == Fire(BothReady(), Run(1, 0)) && Enabled(s1, Run(0, 0))
    ensures ReopenedBy(BothReady(), Run(1, 0), 5) && s2 == Fire(s1, Run(0, 0))
    ensures IsMember(s1.store, 1, 2) && !Orphan(s1.store, 5) && Orphan(s2.store, 5)
  {
    assert MemberKey(1, 2) in Example().members;
  }

  lemma ReadyRun() returns (states: seq<State>, events: seq<Event>)
    ensures IsRun(states, events) && states[0] == Start() && states[|events|] == BothReady()
  {
    states, events := RemovalScans();
    states, events := ReopenerLocksActor(states, events);
    states, events := ReopenerLocksTask(states, events);
  }

  lemma StartIsClean()
    ensures Initial(Start()) && forall t :: !Orphan(Start().store, t)
  {
    ExampleIsClean();
  }

  /** Also false while the assignee is still a member: reopen the task behind the scan of a removal in progress. The
      status change is harmless by itself; the removal's commit leaves the orphan. This run depends on a bulk UPDATE
      that locks only the rows it changes. */
  lemma ScanCanMissReopenedTask() returns (states: seq<State>, events: seq<Event>, j: nat)
    ensures IsRun(states, events) && Initial(states[0]) && forall t :: !Orphan(states[0].store, t)
    ensures j + 2 == |events| && ReopenedBy(states[j], events[j], 5) && IsMember(states[j + 1].store, 1, 2)
    ensures !Orphan(states[j + 1].store, 5) && Orphan(states[j + 2].store, 5)
  {
    StartIsClean();
    states, events := ReadyRun();
    j := |events|;
    var s1 := CommitState(BothReady(), 1, StatusWrite(5, Todo), 0);
    var s2 := CommitState(s1, 0, RemovalWrite(2, {}), 0);
    BothCommit(s1, s2);
    Extended(states, events, Run(1, 0), s1);
    Extended(states + [s1], events + [Run(1, 0)], Run(0, 0), s2);
    states, events := states + [s1] + [s2], events + [Run(1, 0)] + [Run(0, 0)];
  }
}
