/** The users store of internal/users/postgres.go. */
module UserStores {
  import opened Wrappers
  import opened Schema
  import opened Statements
  import opened Errors
  import opened Databases

  /** A user in memory; the service edits it before it is written back. */
  class UserRecord {
    const id: Uuid
    var email: string
    var role: Role
    var passwordHash: Option<string>

    constructor (id: Uuid, row: UserRow)
      ensures this.id == id && Row() == row
    {
      this.id := id;
      email, role, passwordHash := row.email, row.role, row.passwordHash;
    }

    function Row(): UserRow
      reads this
    {
      UserRow(email, role, passwordHash)
    }
  }

  class UserStore {
    const db: Database
    /** Whether the store works in the transaction that is open. */
    const inTx: bool

    constructor (db: Database, inTx: bool)
      ensures this.db == db && this.inTx == inTx
    {
      this.db, this.inTx := db, inTx;
    }

    ghost predicate Ready()
      reads db
    {
      db.Valid() && if inTx then db.session.Active? else db.session.Idle?
    }

    method Create(row: UserRow) returns (id: Uuid, error: Option<Error>)
      requires Ready()
      modifies db
      ensures db.Valid() && db.calls > old(db.calls)
      ensures db.Calm(old(db.calls), db.calls) ==> db.Wrote(InsertUser(row), error)
      ensures !db.Calm(old(db.calls), db.calls) ==> db.Broke(error)
      ensures error == None ==> id == db.uuids(old(db.minted))
    {
      hide Consistent, IdsOf, Exec;
      NeverMisses(InsertUser(row));
      var reply := db.Execute(InsertUser(row));
      match reply
      case Done(generated) => return generated, None;
      case Bad(e) =>
        if e == DatabaseError(UniqueViolation) {
          return 0, Some(DuplicateEmail(row.email));
        }
        return 0, Some(Operation(e));
    }

    /** The id is the client's text; the user column is of type UUID. */
    method GetById(id: IdText) returns (user: UserRecord?, error: Option<Error>)
      requires Ready()
      modifies db
      ensures db.Valid() && db.calls > old(db.calls)
      ensures db.Calm(old(db.calls), db.calls) ==>
        match ParseUuid(id)
        case None => db.Dropped() && error == Some(Operation(DatabaseError(InvalidText)))
        case Some(u) =>
          && db.Kept() && error == None
          && if u !in old(db.Now()).users then user == null
             else user != null && fresh(user) && user.id == u && user.Row() == old(db.Now()).users[u]
      ensures !db.Calm(old(db.calls), db.calls) ==> db.Broke(error)
    {
      if id.NotUuid? {
        error := db.Refuse(InvalidText);
        return null, Some(Operation(error.value));
      }
      var r := db.Query();
      match r
      case Failure(e) =>
        return null, Some(Operation(e));
      case Success(t) =>
        if id.uuid !in t.users {
          return null, None;
        }
        user := new UserRecord(id.uuid, t.users[id.uuid]);
        return user, None;
    }

    /** Whether a user has the email. */
    method GetByEmail(email: string) returns (user: UserRecord?, error: Option<Error>)
      requires Ready()
      modifies db
      ensures db.Valid() && db.calls > old(db.calls)
      ensures db.Calm(old(db.calls), db.calls) ==>
        && db.Kept() && error == None
        && match FindEmail(old(db.Now()).users, email)
           case None => user == null
           case Some(u) => user != null && fresh(user) && user.id == u && user.Row() == old(db.Now()).users[u]
      ensures !db.Calm(old(db.calls), db.calls) ==> db.Broke(error)
    {
      var r := db.Query();
      match r
      case Failure(e) =>
        return null, Some(Operation(e));
      case Success(t) =>
        match FindEmail(t.users, email)
        case None =>
          return null, None;
        case Some(u) =>
          user := new UserRecord(u, t.users[u]);
          return user, None;
    }

    method Update(user: UserRecord) returns (error: Option<Error>)
      requires Ready()
      modifies db
      ensures db.Valid() && db.calls > old(db.calls)
      ensures db.Calm(old(db.calls), db.calls) ==> db.Wrote(Statement.UpdateUser(user.id, user.Row()), error)
      ensures !db.Calm(old(db.calls), db.calls) ==> db.Broke(error)
    {
      var reply := db.Execute(Statement.UpdateUser(user.id, user.Row()));
      match reply
      case Done(_) => return None;
      case NoRow => return Some(UserNotFound(Canonical(user.id)));
      case Bad(e) => return Some(Operation(e));
    }

    /** The not-found error names the text the client sent. */
    method Delete(id: IdText) returns (error: Option<Error>)
      requires Ready()
      modifies db
      ensures db.Valid() && db.calls > old(db.calls)
      ensures db.Calm(old(db.calls), db.calls) ==>
        match ParseUuid(id)
        case None => db.Dropped() && error == Some(Operation(DatabaseError(InvalidText)))
        case Some(u) =>
          if u in old(db.Now()).users then db.Wrote(Statement.DeleteUser(u), error)
          else db.Dropped() && error == Some(UserNotFound(id))
      ensures !db.Calm(old(db.calls), db.calls) ==> db.Broke(error)
    {
      if id.NotUuid? {
        error := db.Refuse(InvalidText);
        return Some(Operation(error.value));
      }
      var reply := db.Execute(Statement.DeleteUser(id.uuid));
      match reply
      case Done(_) => return None;
      case NoRow => return Some(UserNotFound(id));
      case Bad(e) => return Some(Operation(e));
    }
  }
}
