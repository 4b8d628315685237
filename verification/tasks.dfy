/** The task record and the request payloads that create or change one
    (`Task`, `TaskCreate`, `TaskUpdate` in api/v1/app.py). */
module Tasks {
  import opened Results

  /** A task identifier. The service draws a random UUID; the model treats ids as opaque. */
  type Id = nat

  /** A point in time, in whole seconds. */
  type Time = int

  /** Priority given to a task whose payload leaves it out (1 is the highest, 5 the lowest). */
  const DefaultPriority: int := 3

  predicate ValidPriority(p: int) { 1 <= p <= 5 }

  datatype Task = Task(
    id: Id,
    title: string,
    description: Option<string>,
    completed: bool,
    created_at: Time,
    updated_at: Time,
    due_date: Option<Time>,
    priority: int,
    tags: seq<string>,
    parent_id: Option<Id>)

  /** What field validation guarantees of every stored task. */
  predicate WellFormed(t: Task) { ValidPriority(t.priority) }

  /** A parsed body of POST and PUT. `priority` and `tags` are `None` only when
      the client sent an explicit null. */
  datatype TaskCreate = TaskCreate(
    title: string,
    description: Option<string>,
    due_date: Option<Time>,
    priority: Option<int>,
    tags: Option<seq<string>>,
    parent_id: Option<Id>)

  predicate ValidCreate(d: TaskCreate)
  {
    d.priority.Some? ==> ValidPriority(d.priority.value)
  }

  /** One field of a JSON body as received: left out, sent as null, or sent with a value. */
  datatype Field<+T> = Absent | Null | Present(value: T)

  /** A POST or PUT body before validation. */
  datatype CreatePayload = CreatePayload(
    title: Field<string>,
    description: Field<string>,
    due_date: Field<Time>,
    priority: Field<int>,
    tags: Field<seq<string>>,
    parent_id: Field<Id>)

  /** An optional field whose default is null. */
  function Nullable<T>(f: Field<T>): Option<T>
  {
    match f
    case Present(v) => Some(v)
    case _ => None
  }

  /** An optional field with a non-null default: leaving it out gives the default,
      an explicit null stays null. */
  function Defaulted<T>(f: Field<T>, default: T): Option<T>
  {
    match f
    case Absent => Some(default)
    case Null => None
    case Present(v) => Some(v)
  }

  /** Validation of a POST/PUT body: the title is required and must be a string,
      and a priority that is sent must lie in 1..5. */
  function ParseCreate(p: CreatePayload): (r: Result<TaskCreate>)
    ensures r.Ok? <==> p.title.Present? && (p.priority.Present? ==> ValidPriority(p.priority.value))
    ensures r.Err? ==> r.error == ValidationError
    ensures r.Ok? ==> ValidCreate(r.value) && r.value.title == p.title.value
    ensures r.Ok? ==> (r.value.priority.None? <==> p.priority.Null?)
    ensures r.Ok? ==> (r.value.tags.None? <==> p.tags.Null?)
    ensures r.Ok? && p.priority.Absent? ==> r.value.priority == Some(DefaultPriority)
    ensures r.Ok? && p.tags.Absent? ==> r.value.tags == Some([])
    ensures r.Ok? && p.priority.Present? ==> r.value.priority == Some(p.priority.value)
    ensures r.Ok? && p.tags.Present? ==> r.value.tags == Some(p.tags.value)
    ensures r.Ok? ==> (r.value.description.Some? <==> p.description.Present?)
    ensures r.Ok? && p.description.Present? ==> r.value.description.value == p.description.value
    ensures r.Ok? ==> (r.value.due_date.Some? <==> p.due_date.Present?)
    ensures r.Ok? && p.due_date.Present? ==> r.value.due_date.value == p.due_date.value
    ensures r.Ok? ==> (r.value.parent_id.Some? <==> p.parent_id.Present?)
    ensures r.Ok? && p.parent_id.Present? ==> r.value.parent_id.value == p.parent_id.value
  {
    if !p.title.Present? then Err(ValidationError)
    else if p.priority.Present? && !ValidPriority(p.priority.value) then Err(ValidationError)
    else Ok(TaskCreate(
      p.title.value,
      Nullable(p.description),
      Nullable(p.due_date),
      Defaulted(p.priority, DefaultPriority),
      Defaulted(p.tags, []),
      Nullable(p.parent_id)))
  }

  /** The body a client sends for a parsed value: every field spelled out. */
  function Encode(d: TaskCreate): CreatePayload
  {
    CreatePayload(
      Present(d.title),
      if d.description.Some? then Present(d.description.value) else Null,
      if d.due_date.Some? then Present(d.due_date.value) else Null,
      if d.priority.Some? then Present(d.priority.value) else Null,
      if d.tags.Some? then Present(d.tags.value) else Null,
      if d.parent_id.Some? then Present(d.parent_id.value) else Null)
  }

  /** Every valid parsed body is what parsing its full encoding gives back. */
  lemma ParseEncode(d: TaskCreate)
    requires ValidCreate(d)
    ensures ParseCreate(Encode(d)) == Ok(d)
  {
  }

  /** The task built by POST: not completed, both timestamps `now`, priority 3
      and no tags when the parsed value is null. */
  function NewTask(d: TaskCreate, id: Id, now: Time, parent: Option<Id>): Task
  {
    Task(id, d.title, d.description, false, now, now, d.due_date,
         d.priority.GetOr(DefaultPriority), d.tags.GetOr([]), parent)
  }

  /** The full replacement done by PUT on the stored task `t`. */
  function ApplyPut(t: Task, d: TaskCreate, now: Time): Task
  {
    t.(title := d.title,
       description := d.description,
       due_date := d.due_date,
       priority := d.priority.GetOr(t.priority),
       tags := d.tags.GetOr(t.tags),
       parent_id := d.parent_id,
       updated_at := now)
  }

  /** One field of a PATCH body: not sent, or sent with a value. For a nullable
      field the value is itself an `Option`, so `Set(None)` is an explicit null. */
  datatype Patch<+T> = Keep | Set(value: T) {

    /** The field's new value, given its current one. */
    function Over(current: T): T
    {
      if Set? then value else current
    }
  }

  /** A parsed PATCH body (`TaskUpdate` with only the fields the client sent). */
  datatype TaskPatch = TaskPatch(
    title: Patch<string>,
    description: Patch<Option<string>>,
    completed: Patch<bool>,
    due_date: Patch<Option<Time>>,
    priority: Patch<int>,
    tags: Patch<seq<string>>,
    parent_id: Patch<Option<Id>>)

  predicate ValidPatch(p: TaskPatch)
  {
    p.priority.Set? ==> ValidPriority(p.priority.value)
  }

  /** The PATCH assignment: exactly the sent fields change, and `updated_at` becomes `now`. */
  function ApplyPatch(t: Task, p: TaskPatch, now: Time): Task
  {
    t.(title := p.title.Over(t.title),
       description := p.description.Over(t.description),
       completed := p.completed.Over(t.completed),
       due_date := p.due_date.Over(t.due_date),
       priority := p.priority.Over(t.priority),
       tags := p.tags.Over(t.tags),
       parent_id := p.parent_id.Over(t.parent_id),
       updated_at := now)
  }

  /** The PATCH body that sends nothing. */
  const EmptyPatch: TaskPatch := TaskPatch(Keep, Keep, Keep, Keep, Keep, Keep, Keep)

  /** The PATCH body that has the same effect as a PUT of `d`: every field but
      `completed` is sent, except a null priority or null tags. */
  function PutAsPatch(d: TaskCreate): TaskPatch
  {
    TaskPatch(
      Set(d.title),
      Set(d.description),
      Keep,
      Set(d.due_date),
      if d.priority.Some? then Set(d.priority.value) else Keep,
      if d.tags.Some? then Set(d.tags.value) else Keep,
      Set(d.parent_id))
  }

  /** A PATCH that sends nothing only refreshes `updated_at`. */
  lemma EmptyPatchTouchesOnlyTimestamp(t: Task, now: Time)
    ensures ApplyPatch(t, EmptyPatch, now) == t.(updated_at := now)
  {
  }

  /** Sending the same PATCH twice at the same instant changes nothing the first did not. */
  lemma PatchIdempotent(t: Task, p: TaskPatch, now: Time)
    ensures ApplyPatch(ApplyPatch(t, p, now), p, now) == ApplyPatch(t, p, now)
  {
  }

  /** A PUT is the PATCH that sends every field but `completed`, leaving out a null
      priority or null tags: so it keeps `id`, `created_at` and `completed`. */
  lemma PutIsPatch(t: Task, d: TaskCreate, now: Time)
    ensures ApplyPut(t, d, now) == ApplyPatch(t, PutAsPatch(d), now)
  {
  }
}
