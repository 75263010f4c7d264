/** The audited users service of internal/users/service.go. */
module UserServices {
  import opened Wrappers
  import opened Schema
  import opened Statements
  import opened Errors
  import opened Auth
  import opened Protocol
  import opened Databases
  import opened UserStores
  import opened AuditStores
  import opened UserOutcomes

  class UserService {
    const store: UserStore
    /** Without an audit store a mutation runs outside any transaction. */
    const audit: AuditStore?

    constructor (db: Database, audited: bool)
      ensures store.db == db && !store.inTx && fresh(store)
      ensures if audited then audit != null && audit.db == db && !audit.inTx && fresh(audit) else audit == null
    {
      store := new UserStore(db, false);
      if audited {
        audit := new AuditStore(db, false);
      } else {
        audit := null;
      }
    }

    ghost predicate Ready()
      reads store.db
    {
      && !store.inTx && store.Ready()
      && (audit != null ==> audit.db == store.db && !audit.inTx)
    }

    /** Actor, transaction, and the two stores bound to it. */
    method PrepareAuditTx(ctx: Context)
      returns (r: Result<IdText, Error>, txStore: UserStore, txAudit: AuditStore?)
      requires Ready() && audit != null
      modifies store.db
      ensures store.db.Valid() && store.db.calls >= old(store.db.calls)
      ensures ActorIdFromContext(ctx) == None ==> r == Failure(MissingActor) && unchanged(store.db)
      ensures ActorIdFromContext(ctx) != None && store.db.Calm(old(store.db.calls), store.db.calls) ==>
        && r == Success(ActorIdFromContext(ctx).value)
        && store.db.session == Active(store.db.committed)
        && store.db.committed == old(store.db.committed) && store.db.minted == old(store.db.minted)
      ensures ActorIdFromContext(ctx) != None && !store.db.Calm(old(store.db.calls), store.db.calls) ==>
        r.Failure? && store.db.Broke(Some(r.error))
      ensures r.Success? ==>
        && txStore.db == store.db && txStore.inTx
        && txAudit != null && txAudit.db == store.db && txAudit.inTx
    {
      txStore := store;
      r, txAudit := PrepareWriteTx(ctx, audit);
      if r.Success? {
        txStore := new UserStore(store.db, true);
      }
    }

    method CreateUser(ctx: Context, input: CreateUserInput) returns (r: Result<Answer, Error>)
      requires Ready()
      modifies store.db
      ensures store.db.Valid() && store.db.calls >= old(store.db.calls)
      ensures audit != null ==>
        match ActorIdFromContext(ctx)
        case None => r == Failure(MissingActor) && unchanged(store.db)
        case Some(actor) => store.db.Concluded(Mutation.CreateUser(input), actor, r)
      ensures audit == null ==> store.db.Transacted(Mutation.CreateUser(input), r)
    {
      hide Decide, RunPlan, AppendAudit, Consistent, IdsOf;
      if audit == null {
        var id, error := CreateUserWithStore(store, input);
        return if error.Some? then Failure(error.value) else Success(UserAnswer(id, input.email, input.role));
      }
      var prepared, txStore, txAudit := PrepareAuditTx(ctx);
      if prepared.Failure? {
        return Failure(prepared.error);
      }
      var id, error := CreateUserWithStore(txStore, input);
      if error.Some? {
        store.db.Rollback();
        return Failure(error.value);
      }
      error := LogAndCommit(txAudit, Entity.User, Canonical(id), Action.Create, prepared.value);
      if error.Some? {
        return Failure(error.value);
      }
      return Success(UserAnswer(id, input.email, input.role));
    }

    method CreateUserWithStore(store: UserStore, input: CreateUserInput) returns (id: Uuid, error: Option<Error>)
      requires store.Ready()
      modifies store.db
      ensures store.db.Valid() && store.db.calls > old(store.db.calls)
      ensures store.db.Calm(old(store.db.calls), store.db.calls) ==>
        store.db.Worked(Mutation.CreateUser(input), id, error)
      ensures !store.db.Calm(old(store.db.calls), store.db.calls) ==> store.db.Broke(error)
      ensures error == None ==>
        && id in store.db.Now().users
        && store.db.Now().users[id].email == input.email && store.db.Now().users[id].role == input.role
    {
      hide Exec, Consistent, IdsOf, UniqueBy;
      id := 0;
      error := EnsureUniqueEmail(store, input.email);
      if error.Some? {
        return 0, error;
      }
      var user := new UserRecord(0, UserRow(input.email, input.role, None));
      error := SetPasswordIfProvided(user, input.password, input.digest);
      if error.Some? {
        return 0, error;
      }
      NeverMisses(InsertUser(user.Row()));
      CreatedUserThere(store.db.Now(), user.Row(), store.db.uuids(store.db.minted));
      id, error := store.Create(user.Row());
      if error.Some? {
        return 0, Some(Operation(error.value));
      }
    }

    method EnsureUniqueEmail(store: UserStore, email: string) returns (error: Option<Error>)
      requires store.Ready()
      modifies store.db
      ensures store.db.Valid() && store.db.calls > old(store.db.calls)
      ensures store.db.Calm(old(store.db.calls), store.db.calls) ==>
        && store.db.Kept()
        && error == if FindEmail(old(store.db.Now()).users, email).Some? then Some(DuplicateEmail(email)) else None
      ensures !store.db.Calm(old(store.db.calls), store.db.calls) ==> store.db.Broke(error)
    {
      var existing;
      existing, error := store.GetByEmail(email);
      if error.Some? {
        return Some(Operation(error.value));
      }
      if existing != null {
        return Some(DuplicateEmail(email));
      }
    }

    method UpdateUser(ctx: Context, input: UpdateUserInput) returns (r: Result<Answer, Error>)
      requires Ready()
      modifies store.db
      ensures store.db.Valid() && store.db.calls >= old(store.db.calls)
      ensures audit != null ==>
        match ActorIdFromContext(ctx)
        case None => r == Failure(MissingActor) && unchanged(store.db)
        case Some(actor) => store.db.Concluded(Mutation.UpdateUser(input), actor, r)
      ensures audit == null ==> store.db.Transacted(Mutation.UpdateUser(input), r)
    {
      hide Decide, RunPlan, AppendAudit, Consistent, IdsOf;
      if audit == null {
        var user, error := UpdateUserWithStore(store, input);
        return if error.Some? then Failure(error.value) else Success(UserAnswer(user.id, user.email, user.role));
      }
      var prepared, txStore, txAudit := PrepareAuditTx(ctx);
      if prepared.Failure? {
        return Failure(prepared.error);
      }
      var user, error := UpdateUserWithStore(txStore, input);
      if error.Some? {
        store.db.Rollback();
        return Failure(error.value);
      }
      error := LogAndCommit(txAudit, Entity.User, Canonical(user.id), Action.Update, prepared.value);
      if error.Some? {
        return Failure(error.value);
      }
      return Success(UserAnswer(user.id, user.email, user.role));
    }

    method UpdateUserWithStore(store: UserStore, input: UpdateUserInput)
      returns (user: UserRecord?, error: Option<Error>)
      requires store.Ready()
      modifies store.db
      ensures store.db.Valid() && store.db.calls > old(store.db.calls)
      ensures store.db.Calm(old(store.db.calls), store.db.calls) ==>
        store.db.Worked(Mutation.UpdateUser(input), if user == null then 0 else user.id, error)
      ensures !store.db.Calm(old(store.db.calls), store.db.calls) ==> store.db.Broke(error)
      ensures error == None ==>
        && user != null && fresh(user)
        && user.id in store.db.Now().users && store.db.Now().users[user.id] == user.Row()
    {
      hide Exec, Consistent, IdsOf, UniqueBy, EditedUser;
      user, error := store.GetById(input.id);
      if error.Some? {
        return null, Some(Operation(error.value));
      }
      if user == null {
        return null, Some(UserNotFound(input.id));
      }
      error := ApplyUpdateFields(user, input);
      if error.Some? {
        return null, error;
      }
      ghost var last := Statement.UpdateUser(user.id, user.Row());
      RunThenLast(store.db.Now(), [], last, store.db.uuids, store.db.minted, store.db.uuids(store.db.minted));
      assert [] + [last] == [last];
      UpdatedUserThere(store.db.Now(), user.id, user.Row(), store.db.uuids(store.db.minted));
      error := store.Update(user);
      if error.Some? {
        return null, Some(Operation(error.value));
      }
    }

    method DeleteUser(ctx: Context, id: IdText) returns (r: Result<Answer, Error>)
      requires Ready()
      modifies store.db
      ensures store.db.Valid() && store.db.calls >= old(store.db.calls)
      ensures audit != null ==>
        match ActorIdFromContext(ctx)
        case None => r == Failure(MissingActor) && unchanged(store.db)
        case Some(actor) => store.db.Concluded(Mutation.DeleteUser(id), actor, r)
      ensures audit == null ==> store.db.Transacted(Mutation.DeleteUser(id), r)
    {
      hide Decide, RunPlan, AppendAudit, Consistent, IdsOf;
      if audit == null {
        var deleted, error := DeleteUserWithStore(store, id);
        return if error.Some? then Failure(error.value) else Success(Deleted(deleted));
      }
      var prepared, txStore, txAudit := PrepareAuditTx(ctx);
      if prepared.Failure? {
        return Failure(prepared.error);
      }
      var deleted, error := DeleteUserWithStore(txStore, id);
      if error.Some? {
        store.db.Rollback();
        return Failure(error.value);
      }
      if !deleted {
        store.db.Rollback();
        return Success(Deleted(false));
      }
      error := LogAndCommit(txAudit, Entity.User, id, Action.Delete, prepared.value);
      if error.Some? {
        return Failure(error.value);
      }
      return Success(Deleted(true));
    }

    /** A missing user is no error, but nothing is deleted. */
    method DeleteUserWithStore(store: UserStore, id: IdText) returns (deleted: bool, error: Option<Error>)
      requires store.Ready()
      modifies store.db
      ensures store.db.Valid() && store.db.calls > old(store.db.calls)
      ensures store.db.Calm(old(store.db.calls), store.db.calls) ==>
        match Work(old(store.db.Now()), Mutation.DeleteUser(id), store.db.uuids, old(store.db.minted))
        case Success((t, _)) => store.db.Became(t) && deleted && error == None
        case Failure(e) =>
          && store.db.Dropped() && !deleted
          && error == if IsUserNotFound(e) then None else Some(e)
      ensures !store.db.Calm(old(store.db.calls), store.db.calls) ==> !deleted && store.db.Broke(error)
    {
      hide Consistent, IdsOf, UniqueBy;
      ghost var t, n := store.db.Now(), store.db.minted;
      if id.NotUuid? {
        assert Work(t, Mutation.DeleteUser(id), store.db.uuids, n) == Failure(BadText());
      } else {
        RunThenLast(t, [], Statement.DeleteUser(id.uuid), store.db.uuids, n, store.db.uuids(n));
        assert [] + [Statement.DeleteUser(id.uuid)] == [Statement.DeleteUser(id.uuid)];
      }
      error := store.Delete(id);
      if error.Some? {
        NotFoundIsRoot(error.value);
        if IsUserNotFound(error.value) {
          return false, None;
        }
        return false, Some(Operation(error.value));
      }
      return true, None;
    }
  }

  method ApplyUpdateFields(user: UserRecord, input: UpdateUserInput) returns (error: Option<Error>)
    modifies user
    ensures match EditedUser(old(user.Row()), input)
      case Success(row) => error == None && user.Row() == row
      case Failure(e) => error == Some(e)
    ensures EmailWanted(old(user.email), input, user.email) && RoleWanted(old(user.role), input, user.role)
    ensures error == if Given(input.password) && input.digest == None then Some(Operation(HashingFailed)) else None
    ensures error == None ==> HashStored(old(user.passwordHash), input.password, input.digest, user.passwordHash)
  {
    if input.email.Some? {
      user.email := input.email.value;
    }
    if input.role.Some? {
      user.role := input.role.value;
    }
    error := SetPasswordIfProvided(user, input.password, input.digest);
  }

  /** digest is what hashing the password gives, None when it fails. */
  method SetPasswordIfProvided(user: UserRecord, password: Option<string>, digest: Option<string>)
    returns (error: Option<Error>)
    modifies user`passwordHash
    ensures match WithPassword(old(user.Row()), password, digest)
      case Success(row) => error == None && user.Row() == row
      case Failure(e) => error == Some(e)
    ensures error == if Given(password) && digest == None then Some(Operation(HashingFailed)) else None
    ensures error == None ==> HashStored(old(user.passwordHash), password, digest, user.passwordHash)
  {
    if password == None || password == Some("") {
      return None;
    }
    if digest == None {
      return Some(Operation(HashingFailed));
    }
    user.passwordHash := digest;
    return None;
  }

  lemma CreatedUserThere(t: Tables, row: UserRow, id: Uuid)
    ensures var r := Exec(t, InsertUser(row), id); r.Applied? ==> id in r.tables.users && r.tables.users[id] == row
  {
  }

  lemma UpdatedUserThere(t: Tables, u: Uuid, row: UserRow, id: Uuid)
    ensures var r := Exec(t, Statement.UpdateUser(u, row), id);
      r.Applied? ==> u in r.tables.users && r.tables.users[u] == row
  {
  }
}
