/** The store logic of the mutating endpoints `create_task`, `create_subtask`,
    `update_task`, `partial_update_task` and `delete_task`, on one client's collection. */
module Mutations {
  import opened Results
  import opened Tasks
  import opened Filtering
  import opened Collections

  /** `create_task`: the new task is appended under a fresh id. */
  function Create(c: Collection, d: TaskCreate, id: Id, now: Time): (r: (Collection, Task))
    requires Valid(c) && ValidCreate(d) && id !in Ids(c)
    ensures r.0 == c + [r.1]
    ensures Valid(r.0) && Ids(r.0) == Ids(c) + {id}
    ensures Find(r.0, id) == Some(r.1)
    ensures r.1.id == id && !r.1.completed && r.1.created_at == now && r.1.updated_at == now
    ensures r.1.title == d.title && r.1.description == d.description
    ensures r.1.due_date == d.due_date && r.1.parent_id == d.parent_id
    ensures r.1.priority == (if d.priority.Some? then d.priority.value else DefaultPriority)
    ensures r.1.tags == (if d.tags.Some? then d.tags.value else [])
    ensures Chronological(c) ==> Chronological(r.0)
  {
    var t := NewTask(d, id, now, d.parent_id);
    AppendFresh(c, t);
    FindStored(c + [t], |c|);
    (c + [t], t)
  }

  /** `create_subtask`: like `create_task` under an existing parent, whose id
      replaces whatever parent the body names. */
  function CreateSub(c: Collection, parent: Id, d: TaskCreate, id: Id, now: Time): (r: Result<(Collection, Task)>)
    requires Valid(c) && ValidCreate(d) && id !in Ids(c)
    ensures r.Err? <==> parent !in Ids(c)
    ensures r.Err? ==> r.error == NotFound
    ensures r.Ok? ==> r.value.1.parent_id == Some(parent)
    ensures r.Ok? ==> r.value == Create(c, d.(parent_id := Some(parent)), id, now)
    ensures r.Ok? ==> r.value.1 in Children(r.value.0, parent)
  {
    if parent !in Ids(c) then Err(NotFound)
    else Ok(Create(c, d.(parent_id := Some(parent)), id, now))
  }

  /** `update_task` (PUT): the task keeps its id, position, `created_at` and `completed`;
      title, description, due date and parent are overwritten even with null;
      priority and tags are overwritten unless the parsed value is null. */
  function Update(c: Collection, id: Id, d: TaskCreate, now: Time): (r: Result<(Collection, Task)>)
    requires Valid(c) && ValidCreate(d)
    ensures r.Err? <==> id !in Ids(c)
    ensures r.Err? ==> r.error == NotFound
    ensures r.Ok? ==>
      var (c', t) := r.value;
      var before := Find(c, id).value;
      && Valid(c') && Ids(c') == Ids(c) && |c'| == |c|
      && Find(c', id) == Some(t) && c'[IndexOf(c, id)] == t
      && (forall k :: 0 <= k < |c| && c[k].id != id ==> c'[k] == c[k])
      && t.id == id && t.created_at == before.created_at && t.completed == before.completed
      && t.title == d.title && t.description == d.description
      && t.due_date == d.due_date && t.parent_id == d.parent_id
      && t.priority == (if d.priority.Some? then d.priority.value else before.priority)
      && t.tags == (if d.tags.Some? then d.tags.value else before.tags)
      && t.updated_at == now
    ensures r.Ok? && Chronological(c) && CreatedBy(c, now) ==> Chronological(r.value.0)
  {
    if id !in Ids(c) then Err(NotFound)
    else
      var i := IndexOf(c, id);
      var t := ApplyPut(c[i], d, now);
      ReplaceSameId(c, i, t);
      FindStored(c, i);
      FindStored(c[i := t], i);
      Ok((c[i := t], t))
  }

  /** `partial_update_task` (PATCH): exactly the fields the body sends are assigned,
      an explicit null included; the task keeps its id, position and `created_at`. */
  function PartialUpdate(c: Collection, id: Id, p: TaskPatch, now: Time): (r: Result<(Collection, Task)>)
    requires Valid(c) && ValidPatch(p)
    ensures r.Err? <==> id !in Ids(c)
    ensures r.Err? ==> r.error == NotFound
    ensures r.Ok? ==>
      var (c', t) := r.value;
      var before := Find(c, id).value;
      && Valid(c') && Ids(c') == Ids(c) && |c'| == |c|
      && Find(c', id) == Some(t) && c'[IndexOf(c, id)] == t
      && (forall k :: 0 <= k < |c| && c[k].id != id ==> c'[k] == c[k])
      && t.id == id && t.created_at == before.created_at && t.updated_at == now
      && (if p.title.Set? then t.title == p.title.value else t.title == before.title)
      && (if p.description.Set? then t.description == p.description.value else t.description == before.description)
      && (if p.completed.Set? then t.completed == p.completed.value else t.completed == before.completed)
      && (if p.due_date.Set? then t.due_date == p.due_date.value else t.due_date == before.due_date)
      && (if p.priority.Set? then t.priority == p.priority.value else t.priority == before.priority)
      && (if p.tags.Set? then t.tags == p.tags.value else t.tags == before.tags)
      && (if p.parent_id.Set? then t.parent_id == p.parent_id.value else t.parent_id == before.parent_id)
    ensures r.Ok? && Chronological(c) && CreatedBy(c, now) ==> Chronological(r.value.0)
  {
    if id !in Ids(c) then Err(NotFound)
    else
      var i := IndexOf(c, id);
      var t := ApplyPatch(c[i], p, now);
      ReplaceSameId(c, i, t);
      FindStored(c, i);
      FindStored(c[i := t], i);
      Ok((c[i := t], t))
  }

  /** Does a task outlive the deletion of `id`? Only the task itself and its direct
      subtasks go. */
  function Survives(id: Id): Task -> bool
  {
    (t: Task) => t.id != id && t.parent_id != Some(id)
  }

  /** `delete_task`, as it is evidently meant to behave: the task and its direct
      subtasks are removed, every other task stays, in order. */
  function Delete(c: Collection, id: Id): (r: Result<Collection>)
    requires Valid(c)
    ensures r.Err? <==> id !in Ids(c)
    ensures r.Err? ==> r.error == NotFound
    ensures r.Ok? ==> Valid(r.value) && IsSubsequence(r.value, c) && id !in Ids(r.value)
    ensures r.Ok? ==> forall t :: t in r.value <==> t in c && t.id != id && t.parent_id != Some(id)
    ensures r.Ok? ==> forall t :: t in Children(c, id) ==> t !in r.value
    ensures r.Ok? && Chronological(c) ==> Chronological(r.value)
  {
    if id !in Ids(c) then Err(NotFound)
    else
      WhereValid(c, Survives(id));
      WhereIsSubsequence(c, Survives(id));
      Ok(Where(c, Survives(id)))
  }

  /** Deleting a task spares its subtasks' own subtasks: the cascade goes one level deep. */
  lemma CascadeIsOneLevel(c: Collection, id: Id, child: Task, grandchild: Task)
    requires Valid(c) && id in Ids(c)
    requires child in c && child.parent_id == Some(id) && child.id != id
    requires grandchild in c && grandchild.parent_id == Some(child.id) && grandchild.id != id
    ensures child !in Delete(c, id).value
    ensures grandchild in Delete(c, id).value
  {
  }

  /** A deletion acknowledgement. */
  datatype Ack = Deleted

  /** Is a task stored under a key other than `k`? */
  function NotId(k: Id): Task -> bool
  {
    (t: Task) => t.id != k
  }

  /** Is a task stored under none of the keys `ks`? */
  function NotAmong(ks: seq<Id>): Task -> bool
  {
    (t: Task) => t.id !in ks
  }

  /** `del client_tasks[k]`: a missing key raises `KeyError`, which the service
      turns into an HTTP 500. */
  function Del(c: Collection, k: Id): (r: (Collection, Result<Ack>))
  {
    if k in Ids(c) then (Where(c, NotId(k)), Ok(Deleted)) else (c, Err(InternalError))
  }

  /** The `for` loop deleting the keys `ks` one after the other; it stops at the
      first missing key, with the deletions done so far kept. */
  function DelEach(c: Collection, ks: seq<Id>): (r: (Collection, Result<Ack>))
    decreases |ks|
  {
    if |ks| == 0 then (c, Ok(Deleted))
    else
      var (c1, r1) := Del(c, ks[0]);
      if r1.Err? then (c1, r1) else DelEach(c1, ks[1..])
  }

  /** `subtasks_to_delete`: the keys of the direct subtasks of `id`, in collection order. */
  function ChildIds(c: Collection, id: Id): (ks: seq<Id>)
  {
    var w := Children(c, id);
    seq(|w|, i requires 0 <= i < |w| => w[i].id)
  }

  /** `delete_task` as written: the subtasks are deleted first, then the task itself
      by a second `del`. It leaves the collection as the intended deletion does, but a
      task that is its own parent is already gone at the second `del`, which raises. */
  function DeleteAsWritten(c: Collection, id: Id): (r: (Collection, Result<Ack>))
    requires Valid(c)
    ensures r.0 == (if id in Ids(c) then Delete(c, id).value else c)
    ensures r.1 ==
      if id !in Ids(c) then Err(NotFound)
      else if Find(c, id).value.parent_id == Some(id) then Err(InternalError)
      else Ok(Deleted)
  {
    if id !in Ids(c) then (c, Err(NotFound))
    else
      DeleteLoopOutcome(c, id);
      var (c1, r1) := DelEach(c, ChildIds(c, id));
      if r1.Err? then (c1, r1) else Del(c1, id)
  }

  /** The deletion loop, run over distinct keys that are all present, never raises
      and removes exactly the entries under those keys. */
  lemma {:induction false} DelEachRemovesKeys(c: Collection, ks: seq<Id>)
    requires Valid(c)
    requires forall i, j :: 0 <= i < j < |ks| ==> ks[i] != ks[j]
    requires forall i :: 0 <= i < |ks| ==> ks[i] in Ids(c)
    ensures DelEach(c, ks) == (Where(c, NotAmong(ks)), Ok(Deleted))
    decreases |ks|
  {
    if |ks| > 0 {
      var k0, rest := ks[0], ks[1..];
      var c1 := Where(c, NotId(k0));
      assert Del(c, k0) == (c1, Ok(Deleted));
      WhereValid(c, NotId(k0));
      forall i | 0 <= i < |rest|
        ensures rest[i] in Ids(c1)
      {
        assert ks[i + 1] == rest[i];
        var t :| t in c && t.id == rest[i];
        assert t in c1;
      }
      DelEachRemovesKeys(c1, rest);
      forall x: Task
        ensures NotAmong(ks)(x) == (NotId(k0)(x) && NotAmong(rest)(x))
      {
        assert ks == [k0] + rest;
      }
      WhereWhere(c, NotId(k0), NotAmong(rest), NotAmong(ks));
      assert DelEach(c, ks) == DelEach(c1, rest);
    } else {
      WhereAll(c, NotAmong(ks));
    }
  }

  /** `subtasks_to_delete` lists distinct keys of the collection, and a stored task's
      key is among them exactly when the task is a direct subtask of `id`. */
  lemma ChildIdsAreChildren(c: Collection, id: Id)
    requires Valid(c)
    ensures forall i, j :: 0 <= i < j < |ChildIds(c, id)| ==> ChildIds(c, id)[i] != ChildIds(c, id)[j]
    ensures forall i :: 0 <= i < |ChildIds(c, id)| ==> ChildIds(c, id)[i] in Ids(c)
    ensures forall t :: t in c ==> (t.id in ChildIds(c, id) <==> t.parent_id == Some(id))
  {
    var w := Children(c, id);
    var ks := ChildIds(c, id);
    WhereValid(c, ChildOf(id));
    forall i | 0 <= i < |ks|
      ensures ks[i] in Ids(c)
    {
      assert w[i] in c;
    }
    forall t | t in c
      ensures t.id in ks <==> t.parent_id == Some(id)
    {
      if t.parent_id == Some(id) {
        assert t in w;
        var i :| 0 <= i < |w| && w[i] == t;
        assert ks[i] == t.id;
      }
      if t.id in ks {
        var i :| 0 <= i < |ks| && ks[i] == t.id;
        assert w[i] in c;
        var a :| 0 <= a < |c| && c[a] == t;
        var b :| 0 <= b < |c| && c[b] == w[i];
        assert a == b;
      }
    }
  }

  /** The two phases of `delete_task` on a present key: the subtask loop never
      raises and removes the direct subtasks; the second `del` then leaves the
      intended collection, and raises exactly when the task was its own parent. */
  lemma {:induction false} DeleteLoopOutcome(c: Collection, id: Id)
    requires Valid(c) && id in Ids(c)
    ensures DelEach(c, ChildIds(c, id)).1 == Ok(Deleted)
    ensures Del(DelEach(c, ChildIds(c, id)).0, id) ==
      (Delete(c, id).value,
       if Find(c, id).value.parent_id == Some(id) then Err(InternalError) else Ok(Deleted))
  {
    var ks := ChildIds(c, id);
    ChildIdsAreChildren(c, id);
    DelEachRemovesKeys(c, ks);
    var notChild := (t: Task) => t.parent_id != Some(id);
    WhereAgree(c, NotAmong(ks), notChild);
    var c1 := Where(c, notChild);
    var target := Find(c, id).value;
    var ti :| 0 <= ti < |c| && c[ti] == target;
    forall i | 0 <= i < |c| && c[i].id == id
      ensures c[i] == target
    {
    }
    if target.parent_id == Some(id) {
      assert id !in Ids(c1);
      WhereAgree(c, notChild, Survives(id));
    } else {
      assert target in c1;
      assert id in Ids(c1);
      var both := (t: Task) => notChild(t) && NotId(id)(t);
      WhereWhere(c, notChild, NotId(id), both);
      WhereAgree(c, both, Survives(id));
    }
  }

  /** The discrepancy on a concrete input: deleting the single task 1, whose parent
      is 1, removes it but answers with an error. */
  lemma SelfParentedDeleteFails()
    ensures
      var t := Task(1, "t", None, false, 0, 0, None, DefaultPriority, [], Some(1));
      && DeleteAsWritten([t], 1) == ([], Err(InternalError))
      && Delete([t], 1) == Ok([])
  {
    var t := Task(1, "t", None, false, 0, 0, None, DefaultPriority, [], Some(1));
    assert [t][0] == t;
    assert t in [t];
    assert Where([t], Survives(1)) == [];
  }
}
