/** The filtered, sorted, paged task list, against one canonical sequence of the matching tasks. */
module TaskListing {
  import opened Wrappers
  import opened Policies
  import opened Schema

  datatype SortBy = ById | ByPriority | ByCreatedAt | ByUpdatedAt

  datatype Query = Query(
    status: Option<Status>, priority: Option<int>, assignee: Option<UserId>, unassigned: bool,
    limit: nat, offset: nat, sortBy: SortBy, descending: bool)

  datatype Condition =
    | WorkspaceIs(ws: WorkspaceId)
    | StatusIs(status: Status)
    | PriorityIs(priority: int)
    | AssigneeIs(user: UserId)
    | IsUnassigned

  predicate Meets(task: Task, c: Condition) {
    match c
    case WorkspaceIs(ws) => task.workspaceId == ws
    case StatusIs(status) => task.status == status
    case PriorityIs(priority) => task.priority == priority
    case AssigneeIs(user) => task.assigneeId == Some(user)
    case IsUnassigned => task.assigneeId == None
  }

  predicate MeetsAll(task: Task, conditions: seq<Condition>) {
    forall i :: 0 <= i < |conditions| ==> Meets(task, conditions[i])
  }

  /** The filter as the query parameters mean it. */
  predicate Matches(task: Task, ws: WorkspaceId, q: Query) {
    && task.workspaceId == ws
    && (q.status.Some? ==> task.status == q.status.value)
    && (q.priority.Some? ==> task.priority == q.priority.value)
    && (q.assignee.Some? ==> task.assigneeId == q.assignee)
    && (q.unassigned ==> task.assigneeId == None)
  }

  function Matching(st: Store, ws: WorkspaceId, q: Query): set<TaskId> {
    set id | id in st.tasks && Matches(st.tasks[id], ws, q)
  }

  function SortKey(st: Store, sortBy: SortBy, id: TaskId): int
    requires id in st.tasks
  {
    match sortBy
    case ById => id
    case ByPriority => st.tasks[id].priority
    case ByCreatedAt => st.tasks[id].createdAt
    case ByUpdatedAt => st.tasks[id].updatedAt
  }

  /** ORDER BY the sort column, then the id, both in the requested direction. */
  predicate Precedes(st: Store, sortBy: SortBy, descending: bool, a: TaskId, b: TaskId)
    requires a in st.tasks && b in st.tasks
  {
    var ka, kb := SortKey(st, sortBy, a), SortKey(st, sortBy, b);
    if descending then ka > kb || (ka == kb && a > b) else ka < kb || (ka == kb && a < b)
  }

  /** Each of the rows once, in order. */
  ghost predicate IsOrdered(st: Store, sortBy: SortBy, descending: bool, rows: set<TaskId>, s: seq<TaskId>) {
    && rows <= st.tasks.Keys
    && (forall id :: id in s <==> id in rows)
    && (forall i, j :: 0 <= i < j < |s| ==>
          s[i] in rows && s[j] in rows && Precedes(st, sortBy, descending, s[i], s[j]))
  }

  ghost predicate IsFirst(st: Store, sortBy: SortBy, descending: bool, rows: set<TaskId>, m: TaskId)
    requires rows <= st.tasks.Keys
  {
    m in rows && forall x :: x in rows && x != m ==> Precedes(st, sortBy, descending, m, x)
  }

  lemma {:induction false} FirstExists(st: Store, sortBy: SortBy, descending: bool, rows: set<TaskId>)
    requires rows <= st.tasks.Keys && rows != {}
    ensures exists m :: IsFirst(st, sortBy, descending, rows, m)
  {
    var a :| a in rows;
    var rest := rows - {a};
    if rest == {} {
      assert rows == {a};
      assert IsFirst(st, sortBy, descending, rows, a);
    } else {
      FirstExists(st, sortBy, descending, rest);
      var b :| IsFirst(st, sortBy, descending, rest, b);
      assert rows == rest + {a};
      assert IsFirst(st, sortBy, descending, rows, if Precedes(st, sortBy, descending, a, b) then a else b);
    }
  }

  function First(st: Store, sortBy: SortBy, descending: bool, rows: set<TaskId>): (m: TaskId)
    requires rows <= st.tasks.Keys && rows != {}
    ensures m in rows
    ensures forall x :: x in rows && x != m ==> Precedes(st, sortBy, descending, m, x)
  {
    FirstExists(st, sortBy, descending, rows);
    assert exists m :: m in rows && forall x :: x in rows && x != m ==> Precedes(st, sortBy, descending, m, x) by {
      var m :| IsFirst(st, sortBy, descending, rows, m);
    }
    var m :| m in rows && forall x :: x in rows && x != m ==> Precedes(st, sortBy, descending, m, x);
    m
  }

  /** The canonical sequence: repeatedly the first of the remaining rows. */
  function Canonical(st: Store, sortBy: SortBy, descending: bool, rows: set<TaskId>): seq<TaskId>
    requires rows <= st.tasks.Keys
  {
    if rows == {} then []
    else
      var m := First(st, sortBy, descending, rows);
      [m] + Canonical(st, sortBy, descending, rows - {m})
  }

  lemma {:induction false} CanonicalIsOrdered(st: Store, sortBy: SortBy, descending: bool, rows: set<TaskId>)
    requires rows <= st.tasks.Keys
    ensures IsOrdered(st, sortBy, descending, rows, Canonical(st, sortBy, descending, rows))
    ensures |Canonical(st, sortBy, descending, rows)| == |rows|
  {
    if rows != {} {
      var m := First(st, sortBy, descending, rows);
      CanonicalIsOrdered(st, sortBy, descending, rows - {m});
      PrependFirst(st, sortBy, descending, rows, m, Canonical(st, sortBy, descending, rows - {m}));
    }
  }

  lemma PrependFirst(st: Store, sortBy: SortBy, descending: bool, rows: set<TaskId>, m: TaskId, rest: seq<TaskId>)
    requires rows <= st.tasks.Keys && m in rows
    requires forall x :: x in rows && x != m ==> Precedes(st, sortBy, descending, m, x)
    requires IsOrdered(st, sortBy, descending, rows - {m}, rest)
    ensures IsOrdered(st, sortBy, descending, rows, [m] + rest)
  {
    var s := [m] + rest;
    forall id | id in rows ensures id in s {
      if id != m { assert id in rest; }
    }
    forall i, j | 0 <= i < j < |s|
      ensures s[i] in rows && s[j] in rows && Precedes(st, sortBy, descending, s[i], s[j])
    {
      assert s[j] == rest[j - 1];
      assert s[j] in rows - {m};
      if i > 0 { assert s[i] == rest[i - 1]; }
    }
  }

  /** The id tie-break leaves one possible order: two ordered sequences of the same rows are equal. */
  lemma {:induction false} OrderIsUnique(st: Store, sortBy: SortBy, descending: bool, rows: set<TaskId>,
                                         s: seq<TaskId>, t: seq<TaskId>)
    requires IsOrdered(st, sortBy, descending, rows, s) && IsOrdered(st, sortBy, descending, rows, t)
    ensures s == t
    decreases |s|
  {
    assert t != [] ==> t[0] in s;
    if s != [] {
      assert s[0] in t;
      assert s[0] == t[0] by {
        var i :| 0 <= i < |t| && t[i] == s[0];
        var j :| 0 <= j < |s| && s[j] == t[0];
      }
      TailIsOrdered(st, sortBy, descending, rows, s);
      TailIsOrdered(st, sortBy, descending, rows, t);
      OrderIsUnique(st, sortBy, descending, rows - {s[0]}, s[1..], t[1..]);
      assert s == [s[0]] + s[1..] && t == [t[0]] + t[1..];
    }
  }

  lemma TailIsOrdered(st: Store, sortBy: SortBy, descending: bool, rows: set<TaskId>, s: seq<TaskId>)
    requires IsOrdered(st, sortBy, descending, rows, s) && s != []
    ensures IsOrdered(st, sortBy, descending, rows - {s[0]}, s[1..])
  {
    var tail := s[1..];
    forall id | id in rows - {s[0]} ensures id in tail {
      var i :| 0 <= i < |s| && s[i] == id;
      assert tail[i - 1] == id;
    }
    forall i | 0 <= i < |tail| ensures tail[i] in rows - {s[0]} {
      assert Precedes(st, sortBy, descending, s[0], s[i + 1]);
    }
  }

  function Reversed<T>(s: seq<T>): (r: seq<T>)
    ensures |r| == |s|
    ensures forall i :: 0 <= i < |s| ==> r[i] == s[|s| - 1 - i]
  {
    if s == [] then [] else Reversed(s[1..]) + [s[0]]
  }

  lemma ReversedIsOrdered(st: Store, sortBy: SortBy, rows: set<TaskId>, up: seq<TaskId>)
    requires IsOrdered(st, sortBy, false, rows, up)
    ensures IsOrdered(st, sortBy, true, rows, Reversed(up))
  {
    var r := Reversed(up);
    forall id | id in rows ensures id in r {
      var i :| 0 <= i < |up| && up[i] == id;
      assert r[|up| - 1 - i] == id;
    }
    forall i | 0 <= i < |r| ensures r[i] in rows { assert r[i] == up[|up| - 1 - i]; }
    forall i, j | 0 <= i < j < |r| ensures Precedes(st, sortBy, true, r[i], r[j]) {
      assert r[i] == up[|up| - 1 - i] && r[j] == up[|up| - 1 - j];
      assert Precedes(st, sortBy, false, up[|up| - 1 - j], up[|up| - 1 - i]);
    }
  }

  /** `desc` is the exact reverse of `asc`, ties included. */
  lemma DescendingReversesAscending(st: Store, sortBy: SortBy, rows: set<TaskId>)
    requires rows <= st.tasks.Keys
    ensures Canonical(st, sortBy, true, rows) == Reversed(Canonical(st, sortBy, false, rows))
  {
    CanonicalIsOrdered(st, sortBy, false, rows);
    CanonicalIsOrdered(st, sortBy, true, rows);
    ReversedIsOrdered(st, sortBy, rows, Canonical(st, sortBy, false, rows));
    OrderIsUnique(st, sortBy, true, rows, Canonical(st, sortBy, true, rows),
                  Reversed(Canonical(st, sortBy, false, rows)));
  }

  // ---------------------------------------------------------------- paging

  function Least(a: nat, b: nat): nat {
    if a < b then a else b
  }

  /** OFFSET and LIMIT. */
  function Page<T>(s: seq<T>, offset: nat, limit: nat): seq<T> {
    s[Least(offset, |s|)..Least(offset + limit, |s|)]
  }

  function Pages<T>(s: seq<T>, offset: nat, limit: nat): seq<T>
    requires limit > 0
    decreases if offset < |s| then |s| - offset else 0
  {
    if offset >= |s| then [] else Page(s, offset, limit) + Pages(s, offset + limit, limit)
  }

  /** Consecutive pages over an unchanged store concatenate to everything from the first offset on. */
  lemma {:induction false} PagesCover<T>(s: seq<T>, offset: nat, limit: nat)
    requires limit > 0
    ensures Pages(s, offset, limit) == s[Least(offset, |s|)..]
    decreases if offset < |s| then |s| - offset else 0
  {
    if offset < |s| { PagesCover(s, offset + limit, limit); }
  }

  // ---------------------------------------------------------------- the query

  /** One ORDER BY expression. */
  datatype OrderTerm = OrderTerm(column: SortBy, descending: bool)

  /** Lexicographic comparison by the ORDER BY expressions; 0 is a tie. */
  function Compare(st: Store, order: seq<OrderTerm>, a: TaskId, b: TaskId): int
    requires a in st.tasks && b in st.tasks
  {
    if order == [] then 0
    else
      var ka, kb := SortKey(st, order[0].column, a), SortKey(st, order[0].column, b);
      if ka == kb then Compare(st, order[1..], a, b)
      else if (ka < kb) != order[0].descending then -1 else 1
  }

  /** All that SQL promises of a sorted result: each row once, and ties in any order. */
  ghost predicate SqlSorted(st: Store, order: seq<OrderTerm>, rows: set<TaskId>, s: seq<TaskId>) {
    && rows <= st.tasks.Keys
    && (forall id :: id in s <==> id in rows)
    && (forall i, j :: 0 <= i < j < |s| ==>
          s[i] in rows && s[j] in rows && s[i] != s[j] && Compare(st, order, s[i], s[j]) <= 0)
  }

  function OrderFor(sortBy: SortBy, descending: bool): seq<OrderTerm> {
    [OrderTerm(sortBy, descending)] + if sortBy != ById then [OrderTerm(ById, descending)] else []
  }

  /** With the id as last expression no two rows tie, and the comparison is the requested order. */
  lemma CompareIsPrecedes(st: Store, sortBy: SortBy, descending: bool, a: TaskId, b: TaskId)
    requires a in st.tasks && b in st.tasks && a != b
    ensures Compare(st, OrderFor(sortBy, descending), a, b) <= 0 <==> Precedes(st, sortBy, descending, a, b)
  {
    var order := OrderFor(sortBy, descending);
    assert order[0] == OrderTerm(sortBy, descending);
    if sortBy != ById {
      assert order[1..] == [OrderTerm(ById, descending)];
    }
  }

  /** So whatever the database returns for these expressions is the canonical sequence. */
  lemma SqlSortedIsCanonical(st: Store, sortBy: SortBy, descending: bool, rows: set<TaskId>, s: seq<TaskId>)
    requires rows <= st.tasks.Keys
    ensures SqlSorted(st, OrderFor(sortBy, descending), rows, s) <==> s == Canonical(st, sortBy, descending, rows)
  {
    var canonical := Canonical(st, sortBy, descending, rows);
    CanonicalIsOrdered(st, sortBy, descending, rows);
    forall i, j | 0 <= i < j < |canonical|
      ensures canonical[i] != canonical[j] && Compare(st, OrderFor(sortBy, descending), canonical[i], canonical[j]) <= 0
    {
      assert Precedes(st, sortBy, descending, canonical[i], canonical[j]);
      CompareIsPrecedes(st, sortBy, descending, canonical[i], canonical[j]);
    }
    if SqlSorted(st, OrderFor(sortBy, descending), rows, s) {
      forall i, j | 0 <= i < j < |s|
        ensures s[i] in rows && s[j] in rows && Precedes(st, sortBy, descending, s[i], s[j])
      {
        CompareIsPrecedes(st, sortBy, descending, s[i], s[j]);
      }
      OrderIsUnique(st, sortBy, descending, rows, s, canonical);
    }
  }

  /** The database's sort, known to its callers only by what SQL promises. */
  method Select(st: Store, conditions: seq<Condition>, ghost sortBy: SortBy, ghost descending: bool,
                order: seq<OrderTerm>)
    returns (s: seq<TaskId>)
    requires order == OrderFor(sortBy, descending)
    ensures SqlSorted(st, order, Selected(st, conditions), s)
  {
    s := Canonical(st, order[0].column, order[0].descending, Selected(st, conditions));
    SqlSortedIsCanonical(st, sortBy, descending, Selected(st, conditions), s);
  }

  /** WHERE: the rows that meet every collected condition. */
  function Selected(st: Store, conditions: seq<Condition>): set<TaskId> {
    set id | id in st.tasks && MeetsAll(st.tasks[id], conditions)
  }

  // ---------------------------------------------------------------- what a caller sees, in the columns of the rows

  /** The first row is listed before the second. */
  predicate ListedBefore(st: Store, q: Query, x: TaskId, y: TaskId)
    requires x in st.tasks && y in st.tasks
  {
    var a, b := st.tasks[x], st.tasks[y];
    match (q.sortBy, q.descending)
    case (ById, false) => x < y
    case (ById, true) => x > y
    case (ByPriority, false) => a.priority < b.priority || (a.priority == b.priority && x < y)
    case (ByPriority, true) => a.priority > b.priority || (a.priority == b.priority && x > y)
    case (ByCreatedAt, false) => a.createdAt < b.createdAt || (a.createdAt == b.createdAt && x < y)
    case (ByCreatedAt, true) => a.createdAt > b.createdAt || (a.createdAt == b.createdAt && x > y)
    case (ByUpdatedAt, false) => a.updatedAt < b.updatedAt || (a.updatedAt == b.updatedAt && x < y)
    case (ByUpdatedAt, true) => a.updatedAt > b.updatedAt || (a.updatedAt == b.updatedAt && x > y)
  }

  /** The row is asked for. */
  predicate AskedFor(st: Store, ws: WorkspaceId, q: Query, id: TaskId) {
    && id in st.tasks && st.tasks[id].workspaceId == ws
    && (q.status == None || q.status == Some(st.tasks[id].status))
    && (q.priority == None || q.priority == Some(st.tasks[id].priority))
    && (q.assignee == None || q.assignee == st.tasks[id].assigneeId)
    && (!q.unassigned || st.tasks[id].assigneeId == None)
  }

  function Earlier(st: Store, ws: WorkspaceId, q: Query, id: TaskId): set<TaskId>
    requires id in st.tasks
  {
    set x | x in st.tasks && AskedFor(st, ws, q, x) && ListedBefore(st, q, x, id)
  }

  /** The page: as many asked-for rows as there are from the offset on, at most the limit; the k-th has exactly
      `offset + k` asked-for rows before it. */
  ghost predicate PagePromise(st: Store, ws: WorkspaceId, q: Query, items: seq<TaskId>, total: nat) {
    && total == |set id | id in st.tasks && AskedFor(st, ws, q, id)|
    && |items| == (if total < q.offset then 0 else if total - q.offset < q.limit then total - q.offset else q.limit)
    && (forall id :: id in items ==> AskedFor(st, ws, q, id))
    && (forall i, j :: 0 <= i < j < |items| ==>
          items[i] in st.tasks && items[j] in st.tasks && ListedBefore(st, q, items[i], items[j]))
    && (forall k :: 0 <= k < |items| ==> items[k] in st.tasks && |Earlier(st, ws, q, items[k])| == q.offset + k)
  }

  lemma {:induction false} DistinctPrefixSize<T>(s: seq<T>, k: nat)
    requires k <= |s| && forall i, j :: 0 <= i < j < |s| ==> s[i] != s[j]
    ensures |set i | 0 <= i < k :: s[i]| == k
  {
    if k > 0 {
      DistinctPrefixSize(s, k - 1);
      var before := set i | 0 <= i < k - 1 :: s[i];
      assert (set i | 0 <= i < k :: s[i]) == before + {s[k - 1]};
      assert s[k - 1] !in before;
    }
  }

  lemma SameOrder(st: Store, q: Query, x: TaskId, y: TaskId)
    requires x in st.tasks && y in st.tasks
    ensures ListedBefore(st, q, x, y) <==> Precedes(st, q.sortBy, q.descending, x, y)
  {
  }

  /** In the canonical sequence the k-th row has k rows before it. */
  lemma PositionInOrder(st: Store, ws: WorkspaceId, q: Query, s: seq<TaskId>, k: nat)
    requires IsOrdered(st, q.sortBy, q.descending, Matching(st, ws, q), s) && k < |s|
    ensures s[k] in st.tasks && |Earlier(st, ws, q, s[k])| == k
  {
    assert s[k] in Matching(st, ws, q);
    assert forall i, j :: 0 <= i < j < |s| ==> s[i] != s[j];
    DistinctPrefixSize(s, k);
    var prefix := set i | 0 <= i < k :: s[i];
    forall x | x in prefix ensures x in Earlier(st, ws, q, s[k]) {
      var i :| 0 <= i < k && s[i] == x;
      assert Precedes(st, q.sortBy, q.descending, s[i], s[k]);
      assert x in Matching(st, ws, q);
      SameOrder(st, q, x, s[k]);
    }
    forall x | x in Earlier(st, ws, q, s[k]) ensures x in prefix { EarlierIsInPrefix(st, ws, q, s, k, x); }
    assert Earlier(st, ws, q, s[k]) == prefix;
  }

  lemma EarlierIsInPrefix(st: Store, ws: WorkspaceId, q: Query, s: seq<TaskId>, k: nat, x: TaskId)
    requires IsOrdered(st, q.sortBy, q.descending, Matching(st, ws, q), s) && k < |s|
    requires s[k] in st.tasks && x in Earlier(st, ws, q, s[k])
    ensures exists i :: 0 <= i < k && s[i] == x
  {
    assert forall j :: k < j < |s| ==> s[j] in st.tasks && Precedes(st, q.sortBy, q.descending, s[k], s[j]);
    SameOrder(st, q, x, s[k]);
    assert x in Matching(st, ws, q);
    var i :| 0 <= i < |s| && s[i] == x;
  }

  lemma PagePosition(st: Store, ws: WorkspaceId, q: Query, s: seq<TaskId>, k: nat)
    requires IsOrdered(st, q.sortBy, q.descending, Matching(st, ws, q), s) && k < |Page(s, q.offset, q.limit)|
    ensures var id := Page(s, q.offset, q.limit)[k];
            AskedFor(st, ws, q, id) && id in st.tasks && |Earlier(st, ws, q, id)| == q.offset + k
  {
    assert Page(s, q.offset, q.limit)[k] == s[q.offset + k];
    PositionInOrder(st, ws, q, s, q.offset + k);
    assert s[q.offset + k] in Matching(st, ws, q);
  }

  lemma PageOrder(st: Store, ws: WorkspaceId, q: Query, s: seq<TaskId>, i: nat, j: nat)
    requires IsOrdered(st, q.sortBy, q.descending, Matching(st, ws, q), s) && i < j < |Page(s, q.offset, q.limit)|
    ensures var items := Page(s, q.offset, q.limit);
            items[i] in st.tasks && items[j] in st.tasks && ListedBefore(st, q, items[i], items[j])
  {
    var items := Page(s, q.offset, q.limit);
    assert items[i] == s[q.offset + i] && items[j] == s[q.offset + j];
    assert Precedes(st, q.sortBy, q.descending, s[q.offset + i], s[q.offset + j]);
    SameOrder(st, q, items[i], items[j]);
  }

  lemma OrderedPage(st: Store, ws: WorkspaceId, q: Query, s: seq<TaskId>)
    requires IsOrdered(st, q.sortBy, q.descending, Matching(st, ws, q), s) && |s| == |Matching(st, ws, q)|
    ensures PagePromise(st, ws, q, Page(s, q.offset, q.limit), |Matching(st, ws, q)|)
  {
    var items := Page(s, q.offset, q.limit);
    assert Matching(st, ws, q) == set id | id in st.tasks && AskedFor(st, ws, q, id);
    forall k | 0 <= k < |items|
      ensures AskedFor(st, ws, q, items[k]) && items[k] in st.tasks && |Earlier(st, ws, q, items[k])| == q.offset + k
    {
      PagePosition(st, ws, q, s, k);
    }
    forall i, j | 0 <= i < j < |items|
      ensures items[i] in st.tasks && items[j] in st.tasks && ListedBefore(st, q, items[i], items[j])
    {
      PageOrder(st, ws, q, s, i, j);
    }
  }

  /** `list_tasks`: the conditions and the order expressions are collected as the query asks for them. */
  method ListTasks(st: Store, ws: WorkspaceId, q: Query) returns (items: seq<TaskId>, total: nat)
    ensures items == Page(Canonical(st, q.sortBy, q.descending, Matching(st, ws, q)), q.offset, q.limit)
    ensures total == |Matching(st, ws, q)|
    ensures PagePromise(st, ws, q, items, total)
  {
    var conditions := [WorkspaceIs(ws)];
    if q.status.Some? {
      conditions := conditions + [StatusIs(q.status.value)];
    }
    if q.priority.Some? {
      conditions := conditions + [PriorityIs(q.priority.value)];
    }
    if q.assignee.Some? {
      conditions := conditions + [AssigneeIs(q.assignee.value)];
    }
    if q.unassigned {
      conditions := conditions + [IsUnassigned];
    }
    SelectedIsMatching(st, ws, q, conditions);
    total := |Selected(st, conditions)|;
    var order := [OrderTerm(q.sortBy, q.descending)];
    if q.sortBy != ById {
      order := order + [OrderTerm(ById, q.descending)];
    }
    var sorted := Select(st, conditions, q.sortBy, q.descending, order);
    SqlSortedIsCanonical(st, q.sortBy, q.descending, Matching(st, ws, q), sorted);
    items := Page(sorted, q.offset, q.limit);
    CanonicalIsOrdered(st, q.sortBy, q.descending, Matching(st, ws, q));
    OrderedPage(st, ws, q, sorted);
  }

  function Conditions(ws: WorkspaceId, q: Query): seq<Condition> {
    [WorkspaceIs(ws)]
    + (if q.status.Some? then [StatusIs(q.status.value)] else [])
    + (if q.priority.Some? then [PriorityIs(q.priority.value)] else [])
    + (if q.assignee.Some? then [AssigneeIs(q.assignee.value)] else [])
    + (if q.unassigned then [IsUnassigned] else [])
  }

  lemma MeetsAllConcat(task: Task, a: seq<Condition>, b: seq<Condition>)
    ensures MeetsAll(task, a + b) <==> MeetsAll(task, a) && MeetsAll(task, b)
  {
    assert forall i :: 0 <= i < |a| ==> (a + b)[i] == a[i];
    assert forall i :: 0 <= i < |b| ==> (a + b)[|a| + i] == b[i];
  }

  lemma MeetsOne(task: Task, c: Condition)
    ensures MeetsAll(task, [c]) <==> Meets(task, c)
  {
    if MeetsAll(task, [c]) { assert Meets(task, [c][0]); }
  }

  lemma ConditionsMean(task: Task, ws: WorkspaceId, q: Query)
    ensures MeetsAll(task, Conditions(ws, q)) <==> Matches(task, ws, q)
  {
    var a := [WorkspaceIs(ws)];
    var b := if q.status.Some? then [StatusIs(q.status.value)] else [];
    var c := if q.priority.Some? then [PriorityIs(q.priority.value)] else [];
    var d := if q.assignee.Some? then [AssigneeIs(q.assignee.value)] else [];
    var e := (if q.unassigned then [IsUnassigned] else []);
    MeetsAllConcat(task, a, b);
    MeetsAllConcat(task, a + b, c);
    MeetsAllConcat(task, a + b + c, d);
    MeetsAllConcat(task, a + b + c + d, e);
    MeetsOne(task, WorkspaceIs(ws));
    MeetsOne(task, IsUnassigned);
    if q.status.Some? { MeetsOne(task, StatusIs(q.status.value)); }
    if q.priority.Some? { MeetsOne(task, PriorityIs(q.priority.value)); }
    if q.assignee.Some? { MeetsOne(task, AssigneeIs(q.assignee.value)); }
  }

  /** The collected conditions select exactly the rows the query parameters mean. */
  lemma SelectedIsMatching(st: Store, ws: WorkspaceId, q: Query, conditions: seq<Condition>)
    requires conditions == Conditions(ws, q)
    ensures Selected(st, conditions) == Matching(st, ws, q)
  {
    forall id | id in st.tasks ensures MeetsAll(st.tasks[id], conditions) <==> Matches(st.tasks[id], ws, q) {
      ConditionsMean(st.tasks[id], ws, q);
    }
  }

  /** Reading page after page gives every matching task exactly once, in the canonical order, `total` in all. */
  lemma AllPagesListEverything(st: Store, ws: WorkspaceId, q: Query)
    requires q.limit > 0
    ensures var rows := Matching(st, ws, q);
            var all := Pages(Canonical(st, q.sortBy, q.descending, rows), 0, q.limit);
            |all| == |rows| && IsOrdered(st, q.sortBy, q.descending, rows, all)
  {
    var rows := Matching(st, ws, q);
    CanonicalIsOrdered(st, q.sortBy, q.descending, rows);
    PagesCover(Canonical(st, q.sortBy, q.descending, rows), 0, q.limit);
  }
}
