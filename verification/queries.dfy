/** The store logic of the reading endpoints `list_tasks`, `get_task` and `list_subtasks`. */
module Queries {
  import opened Results
  import opened Tasks
  import opened Filtering
  import opened Collections

  /** The query parameters of `list_tasks`. `parent` keeps only root tasks. */
  datatype ListQuery = ListQuery(
    completed: Option<bool>,
    tag: Option<string>,
    priority: Option<int>,
    parent: bool,
    limit: nat,
    skip: nat)

  /** What query validation guarantees: a positive limit and a priority in 1..5. */
  predicate ValidQuery(q: ListQuery)
  {
    q.limit >= 1 && (q.priority.Some? ==> ValidPriority(q.priority.value))
  }

  /** Does a task satisfy every filter the query supplies? An empty tag supplies none. */
  predicate Matches(q: ListQuery, t: Task)
  {
    && (q.completed.Some? ==> t.completed == q.completed.value)
    && (q.tag.Some? && q.tag.value != "" ==> q.tag.value in t.tags)
    && (q.priority.Some? ==> t.priority == q.priority.value)
    && (q.parent ==> t.parent_id.None?)
  }

  function MatchesQuery(q: ListQuery): Task -> bool
  {
    (t: Task) => Matches(q, t)
  }

  function CompletedIs(b: bool): Task -> bool { (t: Task) => t.completed == b }
  function HasTag(tag: string): Task -> bool { (t: Task) => tag in t.tags }
  function PriorityIs(p: int): Task -> bool { (t: Task) => t.priority == p }
  function IsRoot(): Task -> bool { (t: Task) => t.parent_id.None? }

  /** The four filter passes of `list_tasks`, one after the other, each applied
      only when its parameter is supplied. */
  function Filtered(c: Collection, q: ListQuery): seq<Task>
  {
    var a := if q.completed.Some? then Where(c, CompletedIs(q.completed.value)) else c;
    var b := if q.tag.Some? && q.tag.value != "" then Where(a, HasTag(q.tag.value)) else a;
    var d := if q.priority.Some? then Where(b, PriorityIs(q.priority.value)) else b;
    if q.parent then Where(d, IsRoot()) else d
  }

  /** The filters supplied so far, as one predicate: `UpTo(q, n)` holds of a task
      that passes the first `n` passes of `list_tasks`. */
  predicate UpTo(q: ListQuery, n: nat, t: Task)
  {
    && (n >= 1 && q.completed.Some? ==> t.completed == q.completed.value)
    && (n >= 2 && q.tag.Some? && q.tag.value != "" ==> q.tag.value in t.tags)
    && (n >= 3 && q.priority.Some? ==> t.priority == q.priority.value)
    && (n >= 4 && q.parent ==> t.parent_id.None?)
  }

  function PassesUpTo(q: ListQuery, n: nat): Task -> bool
  {
    (t: Task) => UpTo(q, n, t)
  }

  /** Pass `n` of `list_tasks` (1 to 4) on the result of the passes before it. */
  function Pass(s: seq<Task>, q: ListQuery, n: nat): seq<Task>
  {
    if n == 1 then (if q.completed.Some? then Where(s, CompletedIs(q.completed.value)) else s)
    else if n == 2 then (if q.tag.Some? && q.tag.value != "" then Where(s, HasTag(q.tag.value)) else s)
    else if n == 3 then (if q.priority.Some? then Where(s, PriorityIs(q.priority.value)) else s)
    else (if q.parent then Where(s, IsRoot()) else s)
  }

  /** Is a task kept by pass `n` alone? */
  predicate PassKeeps(q: ListQuery, n: nat, t: Task)
  {
    if n == 1 then (q.completed.Some? ==> t.completed == q.completed.value)
    else if n == 2 then (q.tag.Some? && q.tag.value != "" ==> q.tag.value in t.tags)
    else if n == 3 then (q.priority.Some? ==> t.priority == q.priority.value)
    else (q.parent ==> t.parent_id.None?)
  }

  function PassKeepsFn(q: ListQuery, n: nat): Task -> bool
  {
    (t: Task) => PassKeeps(q, n, t)
  }

  lemma PassIsWhere(s: seq<Task>, q: ListQuery, n: nat)
    requires 1 <= n <= 4
    ensures Pass(s, q, n) == Where(s, PassKeepsFn(q, n))
  {
    if n == 1 {
      if q.completed.Some? { WhereAgree(s, CompletedIs(q.completed.value), PassKeepsFn(q, n)); }
      else { WhereAll(s, PassKeepsFn(q, n)); }
    } else if n == 2 {
      if q.tag.Some? && q.tag.value != "" { WhereAgree(s, HasTag(q.tag.value), PassKeepsFn(q, n)); }
      else { WhereAll(s, PassKeepsFn(q, n)); }
    } else if n == 3 {
      if q.priority.Some? { WhereAgree(s, PriorityIs(q.priority.value), PassKeepsFn(q, n)); }
      else { WhereAll(s, PassKeepsFn(q, n)); }
    } else {
      if q.parent { WhereAgree(s, IsRoot(), PassKeepsFn(q, n)); }
      else { WhereAll(s, PassKeepsFn(q, n)); }
    }
  }

  /** The first `n` passes together. */
  function PassesFirst(c: Collection, q: ListQuery, n: nat): seq<Task>
    requires n <= 4
  {
    if n == 0 then c else Pass(PassesFirst(c, q, n - 1), q, n)
  }

  lemma UpToStep(q: ListQuery, n: nat, t: Task)
    requires 1 <= n <= 4
    ensures UpTo(q, n, t) == (UpTo(q, n - 1, t) && PassKeeps(q, n, t))
  {
  }

  /** The first `n` passes keep exactly what the first `n` filters together keep. */
  lemma {:induction false} PassesFirstIsConjunction(c: Collection, q: ListQuery, n: nat)
    requires n <= 4
    ensures PassesFirst(c, q, n) == Where(c, PassesUpTo(q, n))
  {
    if n == 0 {
      WhereAll(c, PassesUpTo(q, 0));
    } else {
      PassesFirstIsConjunction(c, q, n - 1);
      PassStep(c, q, n);
    }
  }

  /** One more pass on a conjunctive prefix gives the next conjunctive prefix. */
  lemma PassStep(c: Collection, q: ListQuery, n: nat)
    requires 1 <= n <= 4
    requires PassesFirst(c, q, n - 1) == Where(c, PassesUpTo(q, n - 1))
    ensures PassesFirst(c, q, n) == Where(c, PassesUpTo(q, n))
  {
    PassIsWhere(PassesFirst(c, q, n - 1), q, n);
    AddPass(c, q, n);
  }

  /** Filtering by the first `n - 1` conditions and then by condition `n` is
      filtering by the first `n`. */
  lemma AddPass(c: Collection, q: ListQuery, n: nat)
    requires 1 <= n <= 4
    ensures Where(Where(c, PassesUpTo(q, n - 1)), PassKeepsFn(q, n)) == Where(c, PassesUpTo(q, n))
  {
    forall t: Task
      ensures PassesUpTo(q, n)(t) == (PassesUpTo(q, n - 1)(t) && PassKeepsFn(q, n)(t))
    {
      UpToStep(q, n, t);
    }
    WhereWhere(c, PassesUpTo(q, n - 1), PassKeepsFn(q, n), PassesUpTo(q, n));
  }

  /** The passes together keep exactly the tasks matching every supplied filter,
      in collection order. */
  lemma {:induction false} FilteredIsConjunction(c: Collection, q: ListQuery)
    ensures Filtered(c, q) == Where(c, MatchesQuery(q))
  {
    var a := if q.completed.Some? then Where(c, CompletedIs(q.completed.value)) else c;
    var b := if q.tag.Some? && q.tag.value != "" then Where(a, HasTag(q.tag.value)) else a;
    var d := if q.priority.Some? then Where(b, PriorityIs(q.priority.value)) else b;
    assert PassesFirst(c, q, 1) == a;
    assert PassesFirst(c, q, 2) == b;
    assert PassesFirst(c, q, 3) == d;
    assert Filtered(c, q) == PassesFirst(c, q, 4);
    PassesFirstIsConjunction(c, q, 4);
    WhereAgree(c, PassesUpTo(q, 4), MatchesQuery(q));
  }

  /** `list_tasks`: the tasks matching every supplied filter, in collection order,
      sliced to `[skip, skip + limit)`; an offset past the end gives an empty page. */
  function ListTasks(c: Collection, q: ListQuery): (r: seq<Task>)
    requires ValidQuery(q)
    ensures var f := Where(c, MatchesQuery(q));
      && |r| == Min(q.limit, Max(0, |f| - q.skip))
      && forall k :: 0 <= k < |r| ==> r[k] == f[q.skip + k]
    ensures forall t :: t in r ==> t in c && Matches(q, t)
    ensures q.skip >= |c| ==> r == []
  {
    FilteredIsConjunction(c, q);
    Page(Filtered(c, q), q.skip, q.limit)
  }

  /** Before slicing, the listing is the subsequence of the collection holding
      exactly the tasks that match. */
  lemma ListedBeforeSlicing(c: Collection, q: ListQuery)
    ensures IsSubsequence(Filtered(c, q), c)
    ensures forall t :: t in Filtered(c, q) <==> t in c && Matches(q, t)
  {
    FilteredIsConjunction(c, q);
    WhereIsSubsequence(c, MatchesQuery(q));
  }

  /** `get_task`. */
  function GetTask(c: Collection, id: Id): (r: Result<Task>)
    ensures r.Err? <==> id !in Ids(c)
    ensures r.Err? ==> r.error == NotFound
    ensures r.Ok? ==> r.value in c && r.value.id == id
  {
    match Find(c, id)
    case Some(t) => Ok(t)
    case None => Err(NotFound)
  }

  /** `list_subtasks`: the direct subtasks of an existing task, in collection order. */
  function ListSubtasks(c: Collection, id: Id): (r: Result<seq<Task>>)
    ensures r.Err? <==> id !in Ids(c)
    ensures r.Err? ==> r.error == NotFound
    ensures r.Ok? ==> IsSubsequence(r.value, c)
    ensures r.Ok? ==> forall t :: t in r.value <==> t in c && t.parent_id == Some(id)
  {
    if id !in Ids(c) then Err(NotFound)
    else
      WhereIsSubsequence(c, ChildOf(id));
      Ok(Children(c, id))
  }
}
