/** The process-wide store `tasks_db`, from client address to that client's
    collection, and the endpoints of api/v1/app.py as operations on it. The
    client address, the fresh id and the current time are parameters. */
module Store {
  import opened Results
  import opened Tasks
  import opened Collections
  import Mutations
  import Queries
  import Reports

  /** A client's network address. */
  type Ip = string

  type Db = map<Ip, Collection>

  predicate ValidDb(db: Db)
  {
    forall ip :: ip in db ==> Valid(db[ip])
  }

  /** The answer of an endpoint: the store afterwards, and the reply or the error. */
  datatype Reply<+T> = Reply(db: Db, out: Result<T>)

  /** `get_client_tasks`: the client's collection, created empty on first access. */
  function ClientTasks(db: Db, ip: Ip): (r: (Db, Collection))
    ensures r.0.Keys == db.Keys + {ip}
    ensures r.0[ip] == r.1
    ensures forall k :: k in db ==> r.0[k] == db[k]
    ensures ip !in db ==> r.1 == []
  {
    if ip in db then (db, db[ip]) else (db[ip := []], [])
  }

  /** The collection a request from `ip` sees. */
  function TasksOf(db: Db, ip: Ip): Collection
  {
    if ip in db then db[ip] else []
  }

  /** Only the lazy creation of `ip`'s empty collection has happened. */
  predicate OnlyLazyCreation(db: Db, db': Db, ip: Ip)
  {
    && db'.Keys == db.Keys + {ip}
    && (forall k :: k in db ==> db'[k] == db[k])
    && db'[ip] == TasksOf(db, ip)
  }

  /** Nothing but `ip`'s collection differs, and `ip` has one. */
  predicate OnlyClientChanged(db: Db, db': Db, ip: Ip)
  {
    ip in db' && db' - {ip} == db - {ip}
  }

  /** The store with `ip`'s collection replaced by `c`, as a mutation of
      `client_tasks` leaves it. */
  function WithClient(db: Db, ip: Ip, c: Collection): (r: Db)
    requires ValidDb(db) && Valid(c)
    ensures ValidDb(r) && OnlyClientChanged(db, r, ip)
    ensures TasksOf(r, ip) == c
  {
    db[ip := c]
  }

  /** Other clients see the same tasks after a request that changed only `a`'s collection. */
  lemma Isolation(db: Db, db': Db, a: Ip, b: Ip)
    requires OnlyClientChanged(db, db', a) && a != b
    ensures TasksOf(db', b) == TasksOf(db, b)
  {
    assert b in db' <==> b in db' - {a};
    assert b in db <==> b in db - {a};
    if b in db {
      assert (db' - {a})[b] == (db - {a})[b];
    }
  }

  /** A read-only request changes what no client sees, the caller included, so
      `Isolation` covers the read endpoints too. */
  lemma LazyCreationIsolated(db: Db, db': Db, ip: Ip)
    requires OnlyLazyCreation(db, db', ip)
    ensures OnlyClientChanged(db, db', ip)
    ensures forall b :: TasksOf(db', b) == TasksOf(db, b)
  {
  }

  /** POST /tasks/. */
  function CreateTask(db: Db, ip: Ip, d: TaskCreate, id: Id, now: Time): (r: (Db, Task))
    requires ValidDb(db) && ValidCreate(d) && id !in Ids(TasksOf(db, ip))
    ensures ValidDb(r.0) && OnlyClientChanged(db, r.0, ip)
    ensures r.0[ip] == TasksOf(db, ip) + [r.1]
    ensures (r.0[ip], r.1) == Mutations.Create(TasksOf(db, ip), d, id, now)
    ensures r.1.id == id && !r.1.completed && r.1.created_at == now && r.1.updated_at == now
    ensures r.1.title == d.title && r.1.description == d.description
    ensures r.1.due_date == d.due_date && r.1.parent_id == d.parent_id
    ensures r.1.priority == (if d.priority.Some? then d.priority.value else DefaultPriority)
    ensures r.1.tags == (if d.tags.Some? then d.tags.value else [])
  {
    var (db1, c) := ClientTasks(db, ip);
    var (c', t) := Mutations.Create(c, d, id, now);
    (db1[ip := c'], t)
  }

  /** GET /tasks/{task_id}. */
  function GetTask(db: Db, ip: Ip, id: Id): (r: Reply<Task>)
    ensures OnlyLazyCreation(db, r.db, ip)
    ensures r.out == Queries.GetTask(TasksOf(db, ip), id)
    ensures r.out.Err? <==> id !in Ids(TasksOf(db, ip))
    ensures r.out.Err? ==> r.out.error == NotFound
    ensures r.out.Ok? ==> r.out.value in TasksOf(db, ip) && r.out.value.id == id
  {
    var (db1, c) := ClientTasks(db, ip);
    Reply(db1, Queries.GetTask(c, id))
  }

  /** A task read back right after it was created is the task POST returned. */
  lemma CreateThenGet(db: Db, ip: Ip, d: TaskCreate, id: Id, now: Time)
    requires ValidDb(db) && ValidCreate(d) && id !in Ids(TasksOf(db, ip))
    ensures var (db1, t) := CreateTask(db, ip, d, id, now);
      GetTask(db1, ip, id).out == Ok(t)
  {
    var (db1, t) := CreateTask(db, ip, d, id, now);
    FindStored(db1[ip], |db1[ip]| - 1);
  }

  /** GET /tasks/. */
  function ListTasks(db: Db, ip: Ip, q: Queries.ListQuery): (r: (Db, seq<Task>))
    requires Queries.ValidQuery(q)
    ensures OnlyLazyCreation(db, r.0, ip)
    ensures r.1 == Queries.ListTasks(TasksOf(db, ip), q)
    ensures forall t :: t in r.1 ==> t in TasksOf(db, ip) && Queries.Matches(q, t)
    ensures ip !in db ==> r.1 == []
  {
    var (db1, c) := ClientTasks(db, ip);
    assert c == TasksOf(db, ip);
    (db1, Queries.ListTasks(c, q))
  }

  /** PUT /tasks/{task_id}. */
  function UpdateTask(db: Db, ip: Ip, id: Id, d: TaskCreate, now: Time): (r: Reply<Task>)
    requires ValidDb(db) && ValidCreate(d)
    ensures ValidDb(r.db) && OnlyClientChanged(db, r.db, ip)
    ensures r.out.Err? <==> id !in Ids(TasksOf(db, ip))
    ensures r.out.Err? ==> OnlyLazyCreation(db, r.db, ip)
    ensures r.out.Err? ==> r.out.error == NotFound
    ensures r.out.Ok? ==> Mutations.Update(TasksOf(db, ip), id, d, now) == Ok((r.db[ip], r.out.value))
    ensures r.out.Ok? ==> Find(r.db[ip], id) == Some(r.out.value) && Ids(r.db[ip]) == Ids(TasksOf(db, ip))
  {
    var (db1, c) := ClientTasks(db, ip);
    match Mutations.Update(c, id, d, now)
    case Ok((c', t)) => Reply(db1[ip := c'], Ok(t))
    case Err(e) => Reply(db1, Err(e))
  }

  /** PATCH /tasks/{task_id}. */
  function PartialUpdateTask(db: Db, ip: Ip, id: Id, p: TaskPatch, now: Time): (r: Reply<Task>)
    requires ValidDb(db) && ValidPatch(p)
    ensures ValidDb(r.db) && OnlyClientChanged(db, r.db, ip)
    ensures r.out.Err? <==> id !in Ids(TasksOf(db, ip))
    ensures r.out.Err? ==> OnlyLazyCreation(db, r.db, ip)
    ensures r.out.Err? ==> r.out.error == NotFound
    ensures r.out.Ok? ==> Mutations.PartialUpdate(TasksOf(db, ip), id, p, now) == Ok((r.db[ip], r.out.value))
    ensures r.out.Ok? ==> Find(r.db[ip], id) == Some(r.out.value) && Ids(r.db[ip]) == Ids(TasksOf(db, ip))
  {
    var (db1, c) := ClientTasks(db, ip);
    match Mutations.PartialUpdate(c, id, p, now)
    case Ok((c', t)) => Reply(db1[ip := c'], Ok(t))
    case Err(e) => Reply(db1, Err(e))
  }

  /** DELETE /tasks/{task_id}, with the task's direct subtasks, as the service does it:
      a task that is its own parent is deleted, with its subtasks, but the request
      then fails with an internal error. */
  function DeleteTask(db: Db, ip: Ip, id: Id): (r: Reply<Mutations.Ack>)
    requires ValidDb(db)
    ensures ValidDb(r.db) && OnlyClientChanged(db, r.db, ip)
    ensures r.out ==
      if id !in Ids(TasksOf(db, ip)) then Err(NotFound)
      else if Find(TasksOf(db, ip), id).value.parent_id == Some(id) then Err(InternalError)
      else Ok(Mutations.Deleted)
    ensures id !in Ids(TasksOf(db, ip)) ==> OnlyLazyCreation(db, r.db, ip)
    ensures id in Ids(TasksOf(db, ip)) ==> r.db[ip] == Mutations.Delete(TasksOf(db, ip), id).value
    ensures id in Ids(TasksOf(db, ip)) ==> forall t :: t in r.db[ip] <==>
      t in TasksOf(db, ip) && t.id != id && t.parent_id != Some(id)
  {
    var c := TasksOf(db, ip);
    if id !in Ids(c) then Reply(ClientTasks(db, ip).0, Err(NotFound))
    else
      var (c', out) := Mutations.DeleteAsWritten(c, id);
      Reply(WithClient(db, ip, c'), out)
  }

  /** GET /tasks/{task_id}/subtasks. */
  function ListSubtasks(db: Db, ip: Ip, id: Id): (r: Reply<seq<Task>>)
    ensures OnlyLazyCreation(db, r.db, ip)
    ensures r.out == Queries.ListSubtasks(TasksOf(db, ip), id)
    ensures r.out.Err? <==> id !in Ids(TasksOf(db, ip))
    ensures r.out.Err? ==> r.out.error == NotFound
    ensures r.out.Ok? ==> forall t :: t in r.out.value <==> t in TasksOf(db, ip) && t.parent_id == Some(id)
  {
    var (db1, c) := ClientTasks(db, ip);
    Reply(db1, Queries.ListSubtasks(c, id))
  }

  /** POST /tasks/{task_id}/subtasks. */
  function CreateSubtask(db: Db, ip: Ip, parent: Id, d: TaskCreate, id: Id, now: Time): (r: Reply<Task>)
    requires ValidDb(db) && ValidCreate(d) && id !in Ids(TasksOf(db, ip))
    ensures ValidDb(r.db) && OnlyClientChanged(db, r.db, ip)
    ensures r.out.Err? <==> parent !in Ids(TasksOf(db, ip))
    ensures r.out.Err? ==> OnlyLazyCreation(db, r.db, ip)
    ensures r.out.Err? ==> r.out.error == NotFound
    ensures r.out.Ok? ==> (r.db[ip], r.out.value) == Mutations.Create(TasksOf(db, ip), d.(parent_id := Some(parent)), id, now)
    ensures r.out.Ok? ==> r.db[ip] == TasksOf(db, ip) + [r.out.value]
    ensures r.out.Ok? ==> r.out.value.id == id && r.out.value.parent_id == Some(parent)
  {
    var (db1, c) := ClientTasks(db, ip);
    match Mutations.CreateSub(c, parent, d, id, now)
    case Ok((c', t)) => Reply(db1[ip := c'], Ok(t))
    case Err(e) => Reply(db1, Err(e))
  }

  /** GET /tasks/stats. */
  function TasksStats(db: Db, ip: Ip, now: Time): (r: (Db, Reports.Stats))
    ensures OnlyLazyCreation(db, r.0, ip)
    ensures r.1 == Reports.TaskStats(TasksOf(db, ip), now)
    ensures r.1.total == |TasksOf(db, ip)| == r.1.completed + r.1.pending
    ensures r.1.overdue <= r.1.pending
  {
    var (db1, c) := ClientTasks(db, ip);
    (db1, Reports.TaskStats(c, now))
  }

  /** GET /tasks/notifications. */
  function TasksNotifications(db: Db, ip: Ip, now: Time): (r: (Db, seq<Reports.Notification>))
    ensures OnlyLazyCreation(db, r.0, ip)
    ensures r.1 == Reports.Notifications(TasksOf(db, ip), now)
    ensures |r.1| <= |TasksOf(db, ip)|
    ensures forall n :: n in r.1 ==> exists t :: t in TasksOf(db, ip) && Reports.NotificationFor(t, now) == Some(n)
  {
    var (db1, c) := ClientTasks(db, ip);
    (db1, Reports.Notifications(c, now))
  }
}
