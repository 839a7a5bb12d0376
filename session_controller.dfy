/** The session handlers. A session is started on one of the caller's tasks,
    stopped once, read, listed and deleted, always for the caller only: a
    session owned by someone else is reported exactly like a missing one. */
module SessionController {

  import opened Common
  import opened Query
  import opened Tasks
  import opened Sessions

  predicate Owned(sessions: map<SessionId, Session>, id: SessionId, caller: UserId) {
    id in sessions && sessions[id].userID == caller
  }

  /** `POST /sessions`: a session can only be started on a task of the caller. */
  method StartSession(tasks: TaskTable, sessions: SessionTable, caller: UserId, taskID: Option<TaskId>, now: int)
    returns (r: Response<Session>)
    requires tasks.Valid() && sessions.Valid()
    modifies sessions
    ensures sessions.Valid()
    ensures taskID.None? ==> r == Reply(404, "taskID required") && sessions.rows == old(sessions.rows)
    ensures taskID.Some? && tasks.FindOne(taskID.value, caller).None? ==>
      r == Reply(404, "Task not found") && sessions.rows == old(sessions.rows)
    ensures taskID.Some? && tasks.FindOne(taskID.value, caller).Some? ==>
      && r.status == 201 && r.payload.Some?
      && var s := r.payload.value;
      && s == Started(s.id, caller, taskID.value, now)
      && s.id !in old(sessions.rows) && sessions.rows == old(sessions.rows)[s.id := s]
  {
    if taskID.None? {
      return Reply(404, "taskID required");
    }
    var task := tasks.FindOne(taskID.value, caller);
    if task.None? {
      return Reply(404, "Task not found");
    }
    var session := sessions.Create(caller, taskID.value, now);
    r := Response(201, "Session started", Some(session));
  }

  /** `GET /sessions`: the caller's sessions, latest start first. */
  method GetSessions(sessions: SessionTable, caller: UserId) returns (r: Response<seq<Session>>)
    requires sessions.Valid()
    ensures r.status == 200 && r.payload.Some?
    ensures forall s :: multiset(r.payload.value)[s] == (if s in sessions.rows.Values && s.userID == caller then 1 else 0)
    ensures forall i, j :: 0 <= i < j < |r.payload.value| ==>
      r.payload.value[i].startTime >= r.payload.value[j].startTime
  {
    var found := Find(sessions.rows, sessions.nextId, (s: Session) => s.id,
                      (s: Session) => s.userID == caller, (s: Session) => -s.startTime);
    r := Response(200, "Sessions returned successfully", Some(found));
  }

  /** `PATCH /sessions/:id`: stops a running session of the caller. A
      completed session is refused and left as it is, so a session is
      stopped at most once. */
  method StopSession(sessions: SessionTable, caller: UserId, id: Option<SessionId>, now: int)
    returns (r: Response<Session>)
    requires sessions.Valid()
    modifies sessions
    ensures sessions.Valid()
    ensures id.None? ==> r == Reply(404, "Missing sessionID") && sessions.rows == old(sessions.rows)
    ensures id.Some? && !Owned(old(sessions.rows), id.value, caller) ==>
      r == Reply(404, "Session not found") && sessions.rows == old(sessions.rows)
    ensures id.Some? && Owned(old(sessions.rows), id.value, caller) && old(sessions.rows)[id.value].completed ==>
      r == Reply(400, "Session already completed") && sessions.rows == old(sessions.rows)
    ensures id.Some? && Owned(old(sessions.rows), id.value, caller) && !old(sessions.rows)[id.value].completed ==>
      var s := Stopped(old(sessions.rows)[id.value], now);
      r == Response(200, "Session completed successfully", Some(s))
      && sessions.rows == old(sessions.rows)[id.value := s]
  {
    if id.None? {
      return Reply(404, "Missing sessionID");
    }
    var session := sessions.FindOne(id.value, caller);
    if session.None? {
      return Reply(404, "Session not found");
    }
    if session.value.completed {
      return Reply(400, "Session already completed");
    }
    var stopped := Stopped(session.value, now);
    sessions.Save(stopped);
    r := Response(200, "Session completed successfully", Some(stopped));
  }

  /** Stopping twice: the second stop is refused and the values frozen by
      the first one stay. */
  method StopTwice(sessions: SessionTable, caller: UserId, id: SessionId, first: int, second: int)
    returns (r1: Response<Session>, r2: Response<Session>)
    requires sessions.Valid() && Owned(sessions.rows, id, caller) && !sessions.rows[id].completed
    modifies sessions
    ensures r1.status == 200 && r2 == Reply(400, "Session already completed")
    ensures sessions.rows == old(sessions.rows)[id := Stopped(old(sessions.rows)[id], first)]
  {
    r1 := StopSession(sessions, caller, Some(id), first);
    r2 := StopSession(sessions, caller, Some(id), second);
  }

  /** `GET /sessions/:id`. */
  method GetSession(sessions: SessionTable, caller: UserId, id: Option<SessionId>) returns (r: Response<Session>)
    requires sessions.Valid()
    ensures id.None? ==> r == Reply(404, "sessionID required")
    ensures id.Some? && !Owned(sessions.rows, id.value, caller) ==> r == Reply(404, "Session not found")
    ensures id.Some? && Owned(sessions.rows, id.value, caller) ==>
      r == Response(200, "Session returned successfully", Some(sessions.rows[id.value]))
  {
    if id.None? {
      return Reply(404, "sessionID required");
    }
    var session := sessions.FindOne(id.value, caller);
    if session.None? {
      return Reply(404, "Session not found");
    }
    r := Response(200, "Session returned successfully", session);
  }

  /** `DELETE /sessions/:id`: removes the caller's session and nothing else. */
  method DeleteSession(sessions: SessionTable, caller: UserId, id: Option<SessionId>) returns (r: Response<Session>)
    requires sessions.Valid()
    modifies sessions
    ensures sessions.Valid()
    ensures id.None? ==> r == Reply(404, "sessionID required") && sessions.rows == old(sessions.rows)
    ensures id.Some? && !Owned(old(sessions.rows), id.value, caller) ==>
      r == Reply(404, "Session not found") && sessions.rows == old(sessions.rows)
    ensures id.Some? && Owned(old(sessions.rows), id.value, caller) ==>
      r == Reply(200, "Session deleted successfully") && sessions.rows == old(sessions.rows) - {id.value}
  {
    if id.None? {
      return Reply(404, "sessionID required");
    }
    var session := sessions.FindOneAndDelete(id.value, caller);
    if session.None? {
      return Reply(404, "Session not found");
    }
    r := Reply(200, "Session deleted successfully");
  }

  /** A completed session of `caller` that ended on the day of `now`. */
  predicate EndedToday(s: Session, caller: UserId, now: int) {
    s.userID == caller && s.completed && s.endTime.Some? && DayOf(s.endTime.value) == DayOf(now)
  }

  /** `GET /sessions/today`: the caller's completed sessions that ended
      between 00:00:00.000 and 23:59:59.999 of the day of `now`, earliest
      start first. */
  method GetTodaysSessions(sessions: SessionTable, caller: UserId, now: int) returns (r: Response<seq<Session>>)
    requires sessions.Valid()
    ensures r.status == 200 && r.payload.Some?
    ensures forall s :: multiset(r.payload.value)[s] == (if s in sessions.rows.Values && EndedToday(s, caller, now) then 1 else 0)
    ensures forall i, j :: 0 <= i < j < |r.payload.value| ==>
      r.payload.value[i].startTime <= r.payload.value[j].startTime
  {
    var start, end := DayStart(DayOf(now)), DayEnd(DayOf(now));
    var found := Find(sessions.rows, sessions.nextId, (s: Session) => s.id,
                      (s: Session) => s.userID == caller && s.completed && s.endTime.Some?
                                      && start <= s.endTime.value <= end,
                      (s: Session) => s.startTime);
    forall s: Session ensures (s.endTime.Some? && start <= s.endTime.value <= end)
                              <==> (s.endTime.Some? && DayOf(s.endTime.value) == DayOf(now))
    {
      if s.endTime.Some? {
        WithinDayBounds(s.endTime.value, DayOf(now));
      }
    }
    r := Response(200, "Today's sessions returned successfully", Some(found));
  }

  /** `GET /sessions/task/:id`: the caller's sessions on one of the caller's
      tasks, latest start first. */
  method GetSessionsForTasks(tasks: TaskTable, sessions: SessionTable, caller: UserId, taskID: Option<TaskId>)
    returns (r: Response<seq<Session>>)
    requires tasks.Valid() && sessions.Valid()
    ensures taskID.None? ==> r == Reply(404, "taskID required")
    ensures taskID.Some? && tasks.FindOne(taskID.value, caller).None? ==> r == Reply(404, "Task not found")
    ensures taskID.Some? && tasks.FindOne(taskID.value, caller).Some? ==>
      && r.status == 200 && r.payload.Some?
      && (forall s :: multiset(r.payload.value)[s] ==
            (if s in sessions.rows.Values && s.userID == caller && s.taskID == taskID.value then 1 else 0))
      && (forall i, j :: 0 <= i < j < |r.payload.value| ==>
            r.payload.value[i].startTime >= r.payload.value[j].startTime)
  {
    if taskID.None? {
      return Reply(404, "taskID required");
    }
    var task := tasks.FindOne(taskID.value, caller);
    if task.None? {
      return Reply(404, "Task not found");
    }
    var found := Find(sessions.rows, sessions.nextId, (s: Session) => s.id,
                      (s: Session) => s.userID == caller && s.taskID == taskID.value,
                      (s: Session) => -s.startTime);
    r := Response(200, "Sessions for task returned successfully", Some(found));
  }
}
