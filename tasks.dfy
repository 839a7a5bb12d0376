/** The Task collection: its documents and the model operations the
    controllers call on it. Every lookup filters on the id and on the owner. */
module Tasks {

  import opened Common

  type TaskId = nat

  /** A task document. `priority` and `scheduledFor` are the fields the
      controller writes and queries. */
  datatype Task = Task(
    id: TaskId,
    userID: UserId,
    title: string,
    priority: Option<string>,
    completed: bool,
    scheduledFor: Option<int>,
    createdAt: int)

  /** The fields of a request body. An update stores every field the body
      carries, the owner included: no field is filtered out. */
  datatype TaskFields = TaskFields(
    userID: Option<UserId>,
    title: Option<string>,
    priority: Option<string>,
    completed: Option<bool>,
    scheduledFor: Option<int>)

  function Override<T>(field: Option<T>, current: T): T {
    if field.Some? then field.value else current
  }

  /** The document `findOneAndUpdate(filter, updates, { new: true })` returns:
      the body's fields replace the stored ones, the rest stays. */
  function Updated(t: Task, updates: TaskFields): (r: Task)
    ensures r.id == t.id && r.createdAt == t.createdAt
    ensures updates == TaskFields(None, None, None, None, None) ==> r == t
  {
    t.(userID := Override(updates.userID, t.userID),
       title := Override(updates.title, t.title),
       priority := if updates.priority.Some? then updates.priority else t.priority,
       completed := Override(updates.completed, t.completed),
       scheduledFor := if updates.scheduledFor.Some? then updates.scheduledFor else t.scheduledFor)
  }

  /** The Task model: documents by id, and the next id to hand out. */
  class TaskTable {
    var rows: map<TaskId, Task>
    var nextId: nat

    ghost predicate Valid()
      reads this
    {
      forall k :: k in rows ==> k < nextId && rows[k].id == k
    }

    constructor ()
      ensures Valid() && rows == map[]
    {
      rows := map[];
      nextId := 0;
    }

    /** `Task.findOne({ _id: id, userID: owner })`. */
    function FindOne(id: TaskId, owner: UserId): (t: Option<Task>)
      reads this
      requires Valid()
      ensures t.Some? <==> id in rows && rows[id].userID == owner
      ensures t.Some? ==> t.value in rows.Values && t.value.id == id && t.value.userID == owner
    {
      if id in rows && rows[id].userID == owner then Some(rows[id]) else None
    }

    /** `Task.create(doc)`: stores `doc` under a fresh id. */
    method Create(owner: UserId, title: string, priority: Option<string>, now: int) returns (t: Task)
      requires Valid()
      modifies this
      ensures Valid()
      ensures t == Task(old(nextId), owner, title, priority, false, None, now)
      ensures old(nextId) !in old(rows) && rows == old(rows)[t.id := t]
    {
      t := Task(nextId, owner, title, priority, false, None, now);
      rows := rows[nextId := t];
      nextId := nextId + 1;
    }

    /** `Task.findOneAndUpdate({ _id: id, userID: owner }, updates, { new: true })`. */
    method FindOneAndUpdate(id: TaskId, owner: UserId, updates: TaskFields) returns (t: Option<Task>)
      requires Valid()
      modifies this
      ensures Valid() && nextId == old(nextId)
      ensures t.None? ==> old(FindOne(id, owner)).None? && rows == old(rows)
      ensures t.Some? ==> (old(FindOne(id, owner)).Some? && t.value == Updated(old(rows)[id], updates)
                           && rows == old(rows)[id := t.value])
    {
      t := FindOne(id, owner);
      if t.Some? {
        t := Some(Updated(t.value, updates));
        rows := rows[id := t.value];
      }
    }

    /** `Task.findOneAndDelete({ _id: id, userID: owner })`. */
    method FindOneAndDelete(id: TaskId, owner: UserId) returns (t: Option<Task>)
      requires Valid()
      modifies this
      ensures Valid() && nextId == old(nextId)
      ensures t == old(FindOne(id, owner))
      ensures rows == if t.Some? then old(rows) - {id} else old(rows)
    {
      t := FindOne(id, owner);
      if t.Some? {
        rows := rows - {id};
      }
    }
  }
}
