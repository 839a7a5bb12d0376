/** The Session collection: timed work sessions on a task, each owned by one
    user, and the model operations the controllers call on it. */
module Sessions {

  import opened Common
  import opened Tasks

  type SessionId = nat

  /** A session document. `duration` is in minutes; `countsTowardStats` and
      `actualDuration` are the fields the analytics read. */
  datatype Session = Session(
    id: SessionId,
    userID: UserId,
    taskID: TaskId,
    completed: bool,
    startTime: int,
    endTime: Option<int>,
    duration: Option<real>,
    countsTowardStats: bool,
    actualDuration: Option<int>)

  /** A session as `Session.create` stores it: not completed, and nothing
      about its end or its statistics yet. */
  function Started(id: SessionId, owner: UserId, taskID: TaskId, now: int): (s: Session)
    ensures s.id == id && s.userID == owner && s.taskID == taskID && s.startTime == now
    ensures !s.completed && s.endTime.None? && s.duration.None?
    ensures !s.countsTowardStats && s.actualDuration.None?
  {
    Session(id, owner, taskID, false, now, None, None, false, None)
  }

  /** The session after the three assignments of a successful stop:
      completed, ended at `now`, lasting the elapsed wall-clock minutes. */
  function Stopped(s: Session, now: int): (t: Session)
    ensures t.completed && t.endTime == Some(now)
    ensures t.duration == Some((now - s.startTime) as real / 60000.0)
    ensures t.(completed := s.completed, endTime := s.endTime, duration := s.duration) == s
  {
    s.(completed := true, endTime := Some(now), duration := Some((now - s.startTime) as real / 1000.0 / 60.0))
  }

  /** The Session model: documents by id, and the next id to hand out. */
  class SessionTable {
    var rows: map<SessionId, Session>
    var nextId: nat

    ghost predicate Valid()
      reads this
    {
      forall k :: k in rows ==> k < nextId && rows[k].id == k
    }

    constructor ()
      ensures Valid() && rows == map[]
    {
      rows := map[];
      nextId := 0;
    }

    /** `Session.findOne({ _id: id, userID: owner })`. */
    function FindOne(id: SessionId, owner: UserId): (s: Option<Session>)
      reads this
      requires Valid()
      ensures s.Some? <==> id in rows && rows[id].userID == owner
      ensures s.Some? ==> s.value in rows.Values && s.value.id == id && s.value.userID == owner
    {
      if id in rows && rows[id].userID == owner then Some(rows[id]) else None
    }

    /** `Session.create({ userID, taskID, startTime: Date.now() })`. */
    method Create(owner: UserId, taskID: TaskId, now: int) returns (s: Session)
      requires Valid()
      modifies this
      ensures Valid()
      ensures s == Started(old(nextId), owner, taskID, now)
      ensures s.id !in old(rows) && rows == old(rows)[s.id := s]
    {
      s := Started(nextId, owner, taskID, now);
      rows := rows[nextId := s];
      nextId := nextId + 1;
    }

    /** `session.save()` for a document read from the table. */
    method Save(s: Session)
      requires Valid() && s.id in rows
      modifies this
      ensures Valid() && nextId == old(nextId)
      ensures rows == old(rows)[s.id := s]
    {
      rows := rows[s.id := s];
    }

    /** `Session.findOneAndDelete({ _id: id, userID: owner })`. */
    method FindOneAndDelete(id: SessionId, owner: UserId) returns (s: Option<Session>)
      requires Valid()
      modifies this
      ensures Valid() && nextId == old(nextId)
      ensures s == old(FindOne(id, owner))
      ensures rows == if s.Some? then old(rows) - {id} else old(rows)
    {
      s := FindOne(id, owner);
      if s.Some? {
        rows := rows - {id};
      }
    }
  }
}
