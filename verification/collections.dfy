/** One client's task collection: the source's `Dict[UUID, Task]`, kept as a
    sequence in insertion order (the iteration order of a Python dict). */
module Collections {
  import opened Results
  import opened Tasks
  import opened Filtering

  /** The tasks of one client, oldest first. Each task sits under its own id as
      key, so the key is not stored twice. */
  type Collection = seq<Task>

  /** No id occurs twice: the dict has one entry per key. */
  predicate DistinctIds(c: Collection)
  {
    forall i, j :: 0 <= i < j < |c| ==> c[i].id != c[j].id
  }

  /** What every reachable collection satisfies. */
  predicate Valid(c: Collection)
  {
    DistinctIds(c) && forall i :: 0 <= i < |c| ==> WellFormed(c[i])
  }

  /** The keys of the collection. */
  function Ids(c: Collection): set<Id>
  {
    set t | t in c :: t.id
  }

  /** `client_tasks.get(id)`. */
  function Find(c: Collection, id: Id): (r: Option<Task>)
    ensures r.Some? <==> id in Ids(c)
    ensures r.Some? ==> r.value in c && r.value.id == id
    decreases |c|
  {
    if |c| == 0 then None
    else if c[0].id == id then Some(c[0])
    else
      assert c == [c[0]] + c[1..];
      Find(c[1..], id)
  }

  /** The position of the entry with key `id`. */
  function IndexOf(c: Collection, id: Id): (i: nat)
    requires id in Ids(c)
    ensures i < |c| && c[i].id == id
    decreases |c|
  {
    if c[0].id == id then 0
    else
      assert c == [c[0]] + c[1..];
      1 + IndexOf(c[1..], id)
  }

  /** With distinct keys, looking up a stored task's id finds that very task. */
  lemma FindStored(c: Collection, i: nat)
    requires DistinctIds(c) && i < |c|
    ensures Find(c, c[i].id) == Some(c[i])
  {
    var r := Find(c, c[i].id);
    var j :| 0 <= j < |c| && c[j] == r.value;
    assert j == i;
  }

  /** Inserting a task under a fresh key keeps the collection valid and adds exactly that key. */
  lemma AppendFresh(c: Collection, t: Task)
    requires Valid(c) && WellFormed(t) && t.id !in Ids(c)
    ensures Valid(c + [t])
    ensures Ids(c + [t]) == Ids(c) + {t.id}
  {
    forall i | 0 <= i < |c|
      ensures c[i].id != t.id
    {
      assert c[i] in c;
    }
  }

  /** Overwriting an entry with a task under the same key keeps the collection valid
      and its keys unchanged. */
  lemma ReplaceSameId(c: Collection, i: nat, t: Task)
    requires Valid(c) && i < |c| && WellFormed(t) && t.id == c[i].id
    ensures Valid(c[i := t])
    ensures Ids(c[i := t]) == Ids(c)
  {
    var c' := c[i := t];
    forall x | x in Ids(c)
      ensures x in Ids(c')
    {
      var j :| 0 <= j < |c| && c[j].id == x;
      assert c'[j].id == x;
      assert c'[j] in c';
    }
    forall x | x in Ids(c')
      ensures x in Ids(c)
    {
      var j :| 0 <= j < |c'| && c'[j].id == x;
      assert c[j].id == x;
      assert c[j] in c;
    }
  }

  /** Deleting entries keeps the collection valid. */
  lemma {:induction false} WhereValid(c: Collection, p: Task -> bool)
    requires Valid(c)
    ensures Valid(Where(c, p))
    decreases |c|
  {
    if |c| > 0 {
      var rest := c[1..];
      WhereValid(rest, p);
      if p(c[0]) {
        forall t | t in Where(rest, p)
          ensures t.id != c[0].id
        {
          var k :| 0 <= k < |rest| && rest[k] == t;
          assert c[k + 1] == t;
        }
        PrependValid(c[0], Where(rest, p));
        assert Where(c, p) == [c[0]] + Where(rest, p);
      } else {
        assert Where(c, p) == Where(rest, p);
      }
    }
  }

  /** A well-formed task under a key not yet present can go in front. */
  lemma PrependValid(x: Task, w: Collection)
    requires Valid(w) && WellFormed(x)
    requires forall t :: t in w ==> t.id != x.id
    ensures Valid([x] + w)
  {
    forall i, j | 0 <= i < j < |[x] + w|
      ensures ([x] + w)[i].id != ([x] + w)[j].id
    {
      if i == 0 {
        assert ([x] + w)[j] in w;
      }
    }
  }

  /** Is a task a direct subtask of `parent`? */
  function ChildOf(parent: Id): Task -> bool
  {
    (t: Task) => t.parent_id == Some(parent)
  }

  /** The direct subtasks of `parent`, in collection order. Subtasks of subtasks are not included. */
  function Children(c: Collection, parent: Id): seq<Task>
  {
    Where(c, ChildOf(parent))
  }

  /** Every task was created no later than `now`. */
  predicate CreatedBy(c: Collection, now: Time)
  {
    forall i :: 0 <= i < |c| ==> c[i].created_at <= now
  }

  /** Every task was last updated no earlier than it was created. */
  predicate Chronological(c: Collection)
  {
    forall i :: 0 <= i < |c| ==> c[i].created_at <= c[i].updated_at
  }

  /** With distinct ids, a stored task is determined by its id. */
  lemma SameIdSameTask(c: Collection, t: Task, u: Task)
    requires DistinctIds(c) && t in c && u in c && t.id == u.id
    ensures t == u
  {
    var i :| 0 <= i < |c| && c[i] == t;
    var j :| 0 <= j < |c| && c[j] == u;
    assert i == j;
  }
}
