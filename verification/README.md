# Per-client task store

A Dafny model of the task store behind the SwiftTask to-do service
(`api/v1/app.py`). The service keeps one process-wide map `tasks_db` from a
client's network address to that client's tasks. Each client's tasks are a
dict from task id to `Task`, so they stay in insertion order. The endpoints
create, read, list, replace (PUT), patch (PATCH) and delete tasks and
subtasks. They also compute statistics and due-date notifications. Every
endpoint first calls `get_client_tasks`, which creates an empty collection
for an address it has not seen.

Modules, one per component:

- `Results` (`results.dfy`): `Option`, `Result` and the error kinds. `NotFound` is HTTP 404, `ValidationError` is 422 and `InternalError` is an uncaught exception (500).
- `Tasks` (`tasks.dfy`): the `Task` record, and the parsed POST/PUT body `TaskCreate` with its validation `ParseCreate`. A body field is left out, null or a value; left out and null parse differently for `priority` and `tags`. Also the PATCH body `TaskPatch`, where each field is `Keep` or `Set(v)`; for a nullable field `Set(None)` is an explicit null. `ApplyPut` and `ApplyPatch` apply a body to one task.
- `Filtering` (`filtering.dfy`): the list comprehension `[x for x in s if p(x)]` as `Where`, with its algebra (subsequence, conjunction, partition, monotonicity). Also the slice `s[skip:skip+limit]` as `Page`.
- `Collections` (`collections.dfy`): one client's collection as a `seq<Task>` with distinct ids. Each task is stored under its own id, so the key is not kept twice. Python dict order is kept: a new key is appended, an overwrite stays in place, a deletion closes the gap.
- `Mutations` (`mutations.dfy`): create, create-subtask, PUT, PATCH and delete on one collection. It also holds the delete loop exactly as written in the source.
- `Queries` (`queries.dfy`): `list_tasks` with its four filter passes, `get_task` and `list_subtasks`.
- `Reports` (`reports.dfy`): `tasks_stats` and `get_notifications`. A notification is a datatype, `Overdue(id, title)` or `DueSoon(id, title)`, not a message string.
- `Store` (`store.dfy`): the map from address to collection, and every endpoint as an operation on it. Every operation takes the client address. An operation that creates a task also takes the fresh id, and one that stamps or compares times takes the current time; `GetTask`, `ListTasks`, `ListSubtasks` and `DeleteTask` take neither.

Time is an integer number of seconds, so "within one hour" means
`due - now < 3600`. Ids are opaque naturals. A fresh id is a parameter
that must not already be in the client's collection.

The model follows the code, including where a reader might expect
otherwise:

- PUT keeps the stored priority and tags only when the body sends them as an explicit null. A PUT body that leaves them out parses to priority 3 and no tags (`api/v1/app.py:53-54`), which overwrite the stored values. `Tasks.ParseCreate` states this.
- A title may be the empty string: the code only requires a string.
- `updated_at >= created_at` holds only if the clock never reads earlier than a task's creation time. The mutations preserve `Chronological` under that assumption (`CreatedBy`), and a new task takes both timestamps from one clock reading (see `Mutations.Create` under Left out).
- Deleting a task that is its own parent deletes it and its children, then answers HTTP 500 (see Findings).

## Model

| member | source | states |
|---|---|---|
| Tasks.ParseCreate | api/v1/app.py:49-55 | Validation fails exactly when the title is missing or null, or a priority in the body is outside 1..5. A sent value is kept as sent, for every field. When priority or tags are left out, they parse to 3 and `[]`, and they are null exactly when the body sends null. Description, due date and parent are null exactly when the body leaves them out or sends null. |
| Tasks.ParseEncode | api/v1/app.py:49-55 | Parsing the full encoding of any valid parsed body gives that body back. |
| Tasks.EmptyPatchTouchesOnlyTimestamp | api/v1/app.py:179-182 | A PATCH that sends no field changes only `updated_at`. |
| Tasks.PatchIdempotent | api/v1/app.py:179-182 | Applying the same PATCH twice at the same instant equals applying it once. |
| Tasks.PutIsPatch | api/v1/app.py:160-167 | A PUT equals the PATCH that sends every field except `completed`, and leaves out a null priority or null tags. So PUT never changes `id`, `created_at` or `completed`. |
| Filtering.Page | api/v1/app.py:142 | The page has `min(limit, max(0, n - skip))` elements, and element k is element `skip + k` of the filtered list. An offset past the end gives an empty page, not an error. |
| Filtering.WhereIsSubsequence | api/v1/app.py:134-140 | Each comprehension filter keeps the surviving tasks in their original order. |
| Filtering.WhereWhere | api/v1/app.py:133-140 | Two filters applied in sequence keep exactly what their conjunction keeps. |
| Collections.Find | api/v1/app.py:148 | A lookup succeeds exactly when the id is a key of the collection, and it returns a stored task with that id. |
| Collections.AppendFresh | api/v1/app.py:109 | Inserting under a fresh key keeps ids distinct and adds exactly that key. |
| Collections.ReplaceSameId | api/v1/app.py:168 | Writing a task back under its own key keeps the collection valid and its key set unchanged. |
| Collections.WhereValid | api/v1/app.py:194-198 | Removing entries keeps ids distinct and priorities valid. |
| Mutations.Create | api/v1/app.py:101-109 | The new task is appended after all existing entries, which stay unchanged. Its id is the fresh id and it is not completed. Both timestamps are `now`, priority is the given value or 3, tags are the given value or `[]`. Looking up the id finds the new task. |
| Mutations.CreateSub | api/v1/app.py:218-228 | Fails NotFound exactly when the parent is absent. Otherwise it acts as create, but the parent is the given parent whatever the body says, and the new task is among the parent's children. |
| Mutations.Update | api/v1/app.py:157-168 | Fails NotFound exactly when the id is absent. Otherwise, at the same position: title, description, due date and parent are overwritten, even with null. Priority and tags are overwritten unless null. `updated_at` becomes `now`. Id, `created_at`, `completed`, the key set and every other entry are unchanged. |
| Mutations.PartialUpdate | api/v1/app.py:176-183 | Fails NotFound exactly when the id is absent. Otherwise each sent field gets the sent value, an explicit null included. Each unsent field keeps its value and `updated_at` becomes `now`. Position, key set and every other entry are unchanged. |
| Mutations.Delete | api/v1/app.py:191-198 | Fails NotFound exactly when the id is absent. Otherwise a task remains exactly when it was stored, is not the target and is not a direct subtask of it. What remains is a subsequence of the collection, so order is kept. |
| Mutations.CascadeIsOneLevel | api/v1/app.py:194-198 | Deleting a task removes its child but keeps its grandchild. |
| Mutations.DelEachRemovesKeys | api/v1/app.py:195-196 | The deletion loop over distinct present keys never raises. It removes exactly the entries under those keys. |
| Mutations.ChildIdsAreChildren | api/v1/app.py:194 | `subtasks_to_delete` holds distinct present keys. A stored task's key is in it exactly when the task's parent is the target. |
| Mutations.DeleteAsWritten | api/v1/app.py:191-198 | The source's delete: NotFound when the id is absent, and then nothing changes. Otherwise it leaves the same collection as `Delete`, and it answers an internal error exactly when the target is its own parent, otherwise success. |
| Mutations.DeleteLoopOutcome | api/v1/app.py:194-198 | The subtask loop never raises. The final `del` of the target leaves `Delete`'s collection, and raises `KeyError` exactly when the target was its own parent and so already removed. |
| Mutations.SelfParentedDeleteFails | api/v1/app.py:194-198 | Deleting a lone task whose parent is itself empties the collection but answers with an internal error. |
| Queries.FilteredIsConjunction | api/v1/app.py:133-140 | The four filter passes together keep exactly the tasks matching every supplied filter, in collection order. An empty tag and `parent=false` filter nothing. |
| Queries.PassesFirstIsConjunction | api/v1/app.py:133-140 | After the first n passes, the list is the collection filtered by the first n conditions together. |
| Queries.ListedBeforeSlicing | api/v1/app.py:130-140 | Before slicing, the listing is a subsequence of the collection. A task is in it exactly when it is stored and matches. |
| Queries.ListTasks | api/v1/app.py:130-142 | The result is the `[skip, skip+limit)` window of the matching tasks in collection order, with the exact length that gives. Every listed task is stored and matches. An offset at or past the collection's size gives an empty list. |
| Queries.GetTask | api/v1/app.py:147-151 | Fails NotFound exactly when the id is absent, and otherwise returns the stored task with that id. |
| Queries.ListSubtasks | api/v1/app.py:209-212 | Fails NotFound exactly when the parent is absent. Otherwise it returns, in collection order, exactly the stored tasks whose parent is the given id. |
| Reports.TaskStats | api/v1/app.py:242-245 | `total` is the collection size and equals `completed + pending`. `pending` is the number of incomplete tasks, and `0 <= overdue <= pending`. |
| Reports.StatsAgreeWithNotifications | api/v1/app.py:245 | The `overdue` count equals the number of overdue notifications for the same collection and instant, so stats and notifications agree on which tasks are overdue. |
| Reports.Notifications | api/v1/app.py:81-91 | There are no more notifications than tasks. Every notification is the one for some stored task, and every stored task that has one appears. |
| Reports.NotificationsInOrder | api/v1/app.py:84-91 | The notifications are exactly one per task that has one, in collection order. |
| Reports.NotifiedOverdueIff | api/v1/app.py:85-88 | A stored task is reported overdue exactly when it is not completed, has a due date and `now` is past it. |
| Reports.NotifiedDueSoonIff | api/v1/app.py:85-90 | A stored task is reported due soon exactly when it is not completed and its due date lies in `[now, now + 3600)`, the due instant included. |
| Store.ClientTasks | api/v1/app.py:72-76 | The store afterwards has the old keys plus `ip`, and every existing collection is unchanged. A new address gets an empty collection, which is returned. |
| Store.Isolation | api/v1/app.py:70-76 | After a request that changed only client a's collection, any other client sees the same tasks. |
| Store.LazyCreationIsolated | api/v1/app.py:72-76 | A request that only lazily created the caller's collection counts as changing only the caller's collection, and no client, the caller included, sees different tasks afterwards. So `Store.Isolation` covers the read endpoints. |
| Store.CreateTask | api/v1/app.py:97-109 | Only the caller's collection changes: it is the collection `Mutations.Create` gives, and every collection stays valid. The new task is appended, with the fresh id, not completed, both timestamps `now`, the body's title, description, due date and parent, and priority and tags as sent or 3 and `[]`. |
| Store.GetTask | api/v1/app.py:144-151 | Only the lazy creation of the caller's collection happens, and the reply is `Queries.GetTask` on the caller's collection. NotFound exactly when the id is not the caller's, so ids of other clients are invisible. |
| Store.CreateThenGet | api/v1/app.py:101-109 | Reading back a task right after creating it returns the task POST returned. |
| Store.ListTasks | api/v1/app.py:119-142 | Only lazy creation happens, and the reply is `Queries.ListTasks` on the caller's collection. Every listed task is the caller's and matches, and an address with no collection yet gets an empty list. |
| Store.UpdateTask | api/v1/app.py:153-170 | Only the caller's collection changes. NotFound exactly when the id is absent, and then nothing but lazy creation happens. Otherwise the stored collection and reply are those of `Mutations.Update`, the returned task is stored under its id and the key set is unchanged. |
| Store.PartialUpdateTask | api/v1/app.py:172-185 | Only the caller's collection changes. NotFound exactly when the id is absent, and then nothing but lazy creation happens. Otherwise the stored collection and reply are those of `Mutations.PartialUpdate`, the returned task is stored under its id and the key set is unchanged. |
| Store.DeleteTask | api/v1/app.py:187-200 | Only the caller's collection changes. NotFound exactly when the id is absent, and then nothing but lazy creation happens. Otherwise the caller keeps exactly its tasks that are neither the target nor direct subtasks of it, and the reply is an internal error exactly when the target was its own parent; those deletions are kept. |
| Store.ListSubtasks | api/v1/app.py:205-212 | Only lazy creation happens, and the reply is `Queries.ListSubtasks` on the caller's collection. NotFound exactly when the parent is absent, and otherwise the result is exactly the caller's tasks with that parent. |
| Store.CreateSubtask | api/v1/app.py:214-233 | Only the caller's collection changes. NotFound exactly when the parent is absent, and then nothing but lazy creation happens. Otherwise the result is that of `Mutations.Create` with the parent replaced by the given one: the new task is appended. |
| Store.TasksStats | api/v1/app.py:238-252 | Only lazy creation happens, and the reply is `Reports.TaskStats` on the caller's collection: `total` is the caller's task count, `total == completed + pending` and `overdue <= pending`. |
| Store.TasksNotifications | api/v1/app.py:257-262 | Only lazy creation happens, and the reply is `Reports.Notifications` on the caller's collection: at most as many notifications as tasks, each belonging to one of the caller's tasks. |

## Left out

- HTTP plumbing is not modelled: FastAPI routing, CORS, response models and reading `request.client.host`. The client address is a parameter.
- The API-key check `verify_api_key` (`api/v1/app.py:29-32`) is not modelled. It compares a header with a constant before any store access.
- Logging and `background_tasks.add_task` are left out, because they have no effect on the store or the reply.
- `uuid4` and `datetime.utcnow` are not modelled. The fresh id and the time are parameters, and the id is assumed not to be a key of the caller's collection already. The clock is not assumed monotonic.
- Route order is not modelled: `/tasks/{task_id}` is declared before `/tasks/stats` and `/tasks/notifications`, so in the service those GETs are likely caught by the id route and rejected as malformed UUIDs. The stats and notification computations are modelled as reachable.
- Validation of a path id as a UUID and of query parameters is a precondition, not an error path. `ValidQuery` requires `limit >= 1` and a priority in 1..5, and `skip` is a `nat` (`api/v1/app.py:123-126`).
- Mutations.PartialUpdate: the priority range of a PATCH body (`ge=1, le=5` at `api/v1/app.py:62`) is the precondition `ValidPatch`, also on `Store.PartialUpdateTask`. The service answers 422 for an out-of-range priority; the model has no error path for it, unlike POST and PUT bodies, which go through `ParseCreate`.
- Explicit null in PATCH is not modelled for `title`, `completed`, `priority` or `tags`. In the source, `setattr` would store `None` in a field whose declared type forbids it; the PATCH body type here cannot express it.
- Mutations.Create: `Task(...)` reads `utcnow()` once for `created_at` and again for `updated_at` (`api/v1/app.py:42-43`), so in the service the two timestamps of a new task can differ and, with a clock that steps back between the reads, `updated_at < created_at` is possible. The model uses one `now` for both, in `Mutations.CreateSub`, `Store.CreateTask` and `Store.CreateSubtask` too, so a new task is `Chronological` by construction.
- `tasks_stats` calls `utcnow()` once for each task that has a due date (the `and` at `api/v1/app.py:245` short-circuits), but the model uses one `now` for the whole computation.
- Time is whole seconds. Datetimes with microseconds, and the error from comparing naive with timezone-aware datetimes, are not modelled.
- Notification texts are replaced by the `Notification` datatype, which carries the same task id and title.
- Concurrency is out of scope. The service has no locking, and interleaved requests are outside this sequential model.

## Findings

| source | as written | input that shows it | evidently intended | confidence | as-written member | corrected member |
|---|---|---|---|---|---|---|
| api/v1/app.py:194-198 | The direct subtasks are deleted first, then the task by a second `del`. If the task is its own parent, the first loop has already deleted it, so the second `del` raises `KeyError` (HTTP 500) after the deletions happened. | A collection holding only task 1 with `parent_id = 1`, then DELETE of task 1 (lemma `Mutations.SelfParentedDeleteFails`) | The task and its subtasks are removed and the request succeeds | not executed; the KeyError follows from Python dict semantics | Mutations.DeleteAsWritten | Mutations.Delete |
