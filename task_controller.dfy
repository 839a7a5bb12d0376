/** The task handlers. Each one works for the authenticated caller only: a
    task owned by someone else is reported exactly like a missing one. The
    task router mounts none of them yet, so they are modelled as the
    controller functions they are. */
module TaskController {

  import opened Common
  import opened Query
  import opened Tasks

  /** `createTask`: a task needs a truthy title; only the title and the
      priority are taken from the body. */
  method CreateTask(tasks: TaskTable, caller: UserId, body: TaskFields, now: int)
    returns (r: Response<Task>)
    requires tasks.Valid()
    modifies tasks
    ensures tasks.Valid()
    ensures !Truthy(body.title) ==>
      r == Reply(400, "Task title is required") && tasks.rows == old(tasks.rows)
    ensures Truthy(body.title) ==>
      && r.status == 201 && r.payload.Some?
      && var t := r.payload.value;
      && t.id !in old(tasks.rows) && tasks.rows == old(tasks.rows)[t.id := t]
      && t.userID == caller && t.title == body.title.value && t.priority == body.priority
      && !t.completed && t.scheduledFor.None? && t.createdAt == now
  {
    if !Truthy(body.title) {
      return Reply(400, "Task title is required");
    }
    var task := tasks.Create(caller, body.title.value, body.priority, now);
    r := Response(201, "New task created successfully", Some(task));
  }

  /** `getTasks`: the caller's tasks, newest first. */
  method GetTasks(tasks: TaskTable, caller: UserId) returns (r: Response<seq<Task>>)
    requires tasks.Valid()
    ensures r.status == 200 && r.payload.Some?
    ensures forall t :: multiset(r.payload.value)[t] == (if t in tasks.rows.Values && t.userID == caller then 1 else 0)
    ensures forall i, j :: 0 <= i < j < |r.payload.value| ==>
      r.payload.value[i].createdAt >= r.payload.value[j].createdAt
  {
    var found := Find(tasks.rows, tasks.nextId, (t: Task) => t.id,
                      (t: Task) => t.userID == caller, (t: Task) => -t.createdAt);
    r := Response(200, "Tasks returned successfully", Some(found));
  }

  /** `getTask`. */
  method GetTask(tasks: TaskTable, caller: UserId, id: Option<TaskId>) returns (r: Response<Task>)
    requires tasks.Valid()
    ensures id.None? ==> r == Reply(400, "Missing taskID")
    ensures id.Some? && !(id.value in tasks.rows && tasks.rows[id.value].userID == caller) ==>
      r == Reply(404, "Task not found")
    ensures id.Some? && id.value in tasks.rows && tasks.rows[id.value].userID == caller ==>
      r == Response(200, "Task returned successfully", Some(tasks.rows[id.value]))
  {
    if id.None? {
      return Reply(400, "Missing taskID");
    }
    var task := tasks.FindOne(id.value, caller);
    if task.None? {
      return Reply(404, "Task not found");
    }
    r := Response(200, "Task returned successfully", task);
  }

  /** `updateTask`: the body is applied as it is to the caller's task
      and to no other document. */
  method UpdateTask(tasks: TaskTable, caller: UserId, id: Option<TaskId>, updates: TaskFields)
    returns (r: Response<Task>)
    requires tasks.Valid()
    modifies tasks
    ensures tasks.Valid()
    ensures id.None? ==> r == Reply(400, "Missing taskID") && tasks.rows == old(tasks.rows)
    ensures id.Some? && !(id.value in old(tasks.rows) && old(tasks.rows)[id.value].userID == caller) ==>
      r == Reply(404, "Task not found") && tasks.rows == old(tasks.rows)
    ensures id.Some? && id.value in old(tasks.rows) && old(tasks.rows)[id.value].userID == caller ==>
      var t := Updated(old(tasks.rows)[id.value], updates);
      r == Response(200, "Task updated successfully", Some(t))
      && tasks.rows == old(tasks.rows)[id.value := t]
  {
    if id.None? {
      return Reply(400, "Missing taskID");
    }
    var updatedTask := tasks.FindOneAndUpdate(id.value, caller, updates);
    if updatedTask.None? {
      return Reply(404, "Task not found");
    }
    r := Response(200, "Task updated successfully", updatedTask);
  }

  /** `deleteTask`: removes the caller's task and nothing else. */
  method DeleteTask(tasks: TaskTable, caller: UserId, id: Option<TaskId>) returns (r: Response<Task>)
    requires tasks.Valid()
    modifies tasks
    ensures tasks.Valid()
    ensures id.None? ==> r == Reply(400, "Missing taskID") && tasks.rows == old(tasks.rows)
    ensures id.Some? && !(id.value in old(tasks.rows) && old(tasks.rows)[id.value].userID == caller) ==>
      r == Reply(404, "Task not found") && tasks.rows == old(tasks.rows)
    ensures id.Some? && id.value in old(tasks.rows) && old(tasks.rows)[id.value].userID == caller ==>
      r == Response(200, "Task successfully deleted", Some(old(tasks.rows)[id.value]))
      && tasks.rows == old(tasks.rows) - {id.value}
  {
    if id.None? {
      return Reply(400, "Missing taskID");
    }
    var deletedTask := tasks.FindOneAndDelete(id.value, caller);
    if deletedTask.None? {
      return Reply(404, "Task not found");
    }
    r := Response(200, "Task successfully deleted", deletedTask);
  }

  /** An open task of `caller` scheduled on the day of `now`. */
  predicate DueToday(t: Task, caller: UserId, now: int) {
    t.userID == caller && !t.completed && t.scheduledFor.Some? && DayOf(t.scheduledFor.value) == DayOf(now)
  }

  /** The sort key of the "today" query; every task it returns is scheduled. */
  function ScheduledKey(t: Task): int {
    if t.scheduledFor.Some? then t.scheduledFor.value else 0
  }

  /** `getTodaysTasks`: the caller's open tasks scheduled between 00:00:00.000
      and 23:59:59.999 of the day of `now`, earliest first. */
  method GetTodaysTasks(tasks: TaskTable, caller: UserId, now: int) returns (r: Response<seq<Task>>)
    requires tasks.Valid()
    ensures r.status == 200 && r.payload.Some?
    ensures forall t :: multiset(r.payload.value)[t] == (if t in tasks.rows.Values && DueToday(t, caller, now) then 1 else 0)
    ensures forall i, j :: 0 <= i < j < |r.payload.value| ==>
      r.payload.value[i].scheduledFor.Some? && r.payload.value[j].scheduledFor.Some?
      && r.payload.value[i].scheduledFor.value <= r.payload.value[j].scheduledFor.value
  {
    var start, end := DayStart(DayOf(now)), DayEnd(DayOf(now));
    var found := Find(tasks.rows, tasks.nextId, (t: Task) => t.id,
                      (t: Task) => t.userID == caller && !t.completed && t.scheduledFor.Some?
                                   && start <= t.scheduledFor.value <= end,
                      ScheduledKey);
    forall t: Task ensures (t.scheduledFor.Some? && start <= t.scheduledFor.value <= end)
                     <==> (t.scheduledFor.Some? && DayOf(t.scheduledFor.value) == DayOf(now))
    {
      if t.scheduledFor.Some? {
        WithinDayBounds(t.scheduledFor.value, DayOf(now));
      }
    }
    forall i | 0 <= i < |found| ensures found[i].scheduledFor.Some? {
      assert found[i] in multiset(found);
    }
    r := Response(200, "Today's tasks returned successfully", Some(found));
  }
}
