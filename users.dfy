/** The User collection: accounts with a unique email, a password hash, the
    `verified` flag and the timer settings with their schema defaults. */
module Users {

  import opened Common

  datatype TimerSettings = TimerSettings(
    focusMinutes: int,
    breakMinutes: int,
    longBreakMinutes: int,
    intervalsPerSession: int)

  /** The schema defaults: 50 minutes of focus, 10 of break, 20 of long
      break, 3 intervals. */
  const DefaultTimer: TimerSettings := TimerSettings(50, 10, 20, 3)

  /** A user document; `password` holds the bcrypt hash. */
  datatype User = User(id: UserId, email: string, password: string, verified: bool, timer: TimerSettings)

  /** The User model: documents by id, and the next id to hand out. */
  class UserTable {
    var rows: map<UserId, User>
    var nextId: nat

    /** Ids as in every table, and the unique index on `email`. */
    ghost predicate Valid()
      reads this
    {
      && (forall k :: k in rows ==> k < nextId && rows[k].id == k)
      && (forall j, k :: j in rows && k in rows && rows[j].email == rows[k].email ==> j == k)
    }

    constructor ()
      ensures Valid() && rows == map[]
    {
      rows := map[];
      nextId := 0;
    }

    /** `User.findOne({ email })`: the one user with that email, if any. */
    function FindByEmail(email: string): (u: Option<User>)
      reads this
      requires Valid()
      ensures u.Some? <==> exists k :: k in rows && rows[k].email == email
      ensures u.Some? ==> u.value.id in rows && rows[u.value.id] == u.value && u.value.email == email
    {
      if exists k :: k in rows && rows[k].email == email then
        var k :| k in rows && rows[k].email == email;
        Some(rows[k])
      else None
    }

    /** `User.findById(id)`. */
    function FindById(id: UserId): (u: Option<User>)
      reads this
      requires Valid()
      ensures u.Some? <==> id in rows
      ensures u.Some? ==> u.value == rows[id] && u.value.id == id
    {
      if id in rows then Some(rows[id]) else None
    }

    /** `User.create({ email, password })` for an email not yet registered:
        an unverified user with the default timer settings. */
    method Create(email: string, hash: string) returns (u: User)
      requires Valid() && FindByEmail(email).None?
      modifies this
      ensures Valid()
      ensures u == User(old(nextId), email, hash, false, DefaultTimer)
      ensures u.id !in old(rows) && rows == old(rows)[u.id := u]
    {
      u := User(nextId, email, hash, false, DefaultTimer);
      rows := rows[nextId := u];
      nextId := nextId + 1;
    }

    /** `User.findByIdAndUpdate(id, { verified: true }, { new: true })`. */
    method SetVerified(id: UserId) returns (u: Option<User>)
      requires Valid()
      modifies this
      ensures Valid() && nextId == old(nextId)
      ensures id !in old(rows) ==> u.None? && rows == old(rows)
      ensures id in old(rows) ==>
        u == Some(old(rows)[id].(verified := true)) && rows == old(rows)[id := u.value]
    {
      if id !in rows {
        return None;
      }
      u := Some(rows[id].(verified := true));
      rows := rows[id := u.value];
    }

    /** `User.findByIdAndUpdate(id, { password: hash }, { new: true })`. */
    method SetPassword(id: UserId, hash: string) returns (u: Option<User>)
      requires Valid()
      modifies this
      ensures Valid() && nextId == old(nextId)
      ensures id !in old(rows) ==> u.None? && rows == old(rows)
      ensures id in old(rows) ==>
        u == Some(old(rows)[id].(password := hash)) && rows == old(rows)[id := u.value]
    {
      if id !in rows {
        return None;
      }
      u := Some(rows[id].(password := hash));
      rows := rows[id := u.value];
    }

    /** `User.findByIdAndDelete(id)`. */
    method Remove(id: UserId) returns (u: Option<User>)
      requires Valid()
      modifies this
      ensures Valid() && nextId == old(nextId)
      ensures u == old(FindById(id))
      ensures rows == old(rows) - {id}
    {
      u := FindById(id);
      rows := rows - {id};
    }
  }
}
