/** The audit store of internal/audit/postgres.go and the write gate of internal/audit/tx_write.go. */
module AuditStores {
  import opened Wrappers
  import opened Schema
  import opened Statements
  import opened Errors
  import opened Auth
  import opened Databases

  class AuditStore {
    const db: Database
    /** Whether the store works in the transaction that is open, and cannot begin one. */
    const inTx: bool

    constructor (db: Database, inTx: bool)
      ensures this.db == db && this.inTx == inTx
    {
      this.db, this.inTx := db, inTx;
    }

    ghost predicate Ready()
      reads db
    {
      db.Valid() && if inTx then db.session.Active? else db.session.Idle?
    }

    method BeginTx() returns (error: Option<Error>)
      requires Ready()
      modifies db
      ensures db.Valid() && db.calls >= old(db.calls)
      ensures inTx ==> error == Some(BeginUnsupported) && db.Kept() && db.calls == old(db.calls)
      ensures !inTx && db.Calm(old(db.calls), db.calls) ==>
        && error == None && db.session == Active(db.committed)
        && db.committed == old(db.committed) && db.minted == old(db.minted)
      ensures !inTx && !db.Calm(old(db.calls), db.calls) ==> db.Broke(error)
    {
      if inTx {
        return Some(BeginUnsupported);
      }
      error := db.Begin();
    }

    method Create(entity: Entity, entityId: IdText, action: Action, actor: IdText) returns (error: Option<Error>)
      requires Ready()
      modifies db
      ensures db.Valid() && db.calls > old(db.calls)
      ensures db.Calm(old(db.calls), db.calls) ==>
        match AppendAudit(old(db.Now()), entity, entityId, action, actor)
        case Success(t) => db.Became(t) && error == None
        case Failure(reason) => db.Dropped() && error == Some(Operation(DatabaseError(reason)))
      ensures !db.Calm(old(db.calls), db.calls) ==> db.Broke(error)
    {
      error := db.InsertAudit(entity, entityId, action, actor);
      if error.Some? {
        return Some(Operation(error.value));
      }
    }
  }

  /** The actor and a store bound to a new transaction; without an actor nothing is begun. */
  method PrepareWriteTx(ctx: Context, store: AuditStore) returns (r: Result<IdText, Error>, audit: AuditStore?)
    requires store.Ready() && !store.inTx
    modifies store.db
    ensures store.db.Valid() && store.db.calls >= old(store.db.calls)
    ensures ActorIdFromContext(ctx) == None ==> r == Failure(MissingActor) && unchanged(store.db)
    ensures ActorIdFromContext(ctx) != None && store.db.Calm(old(store.db.calls), store.db.calls) ==>
      && r == Success(ActorIdFromContext(ctx).value)
      && store.db.session == Active(store.db.committed)
      && store.db.committed == old(store.db.committed) && store.db.minted == old(store.db.minted)
    ensures ActorIdFromContext(ctx) != None && !store.db.Calm(old(store.db.calls), store.db.calls) ==>
      r.Failure? && store.db.Broke(Some(r.error))
    ensures r.Success? ==> audit != null && fresh(audit) && audit.db == store.db && audit.inTx
  {
    audit := null;
    var actor := ActorIdFromContext(ctx);
    if actor == None {
      return Failure(MissingActor), null;
    }
    var error := store.BeginTx();
    if error.Some? {
      return Failure(error.value), null;
    }
    audit := new AuditStore(store.db, true);
    return Success(actor.value), audit;
  }

  /** How every audited mutation ends: its audit row, then the commit or the deferred rollback. */
  method LogAndCommit(audit: AuditStore, entity: Entity, entityId: IdText, action: Action, actor: IdText)
    returns (error: Option<Error>)
    requires audit.Ready() && audit.inTx
    modifies audit.db
    ensures audit.db.Valid() && audit.db.session.Idle? && audit.db.calls >= old(audit.db.calls)
    ensures audit.db.Calm(old(audit.db.calls), audit.db.calls) ==>
      match AppendAudit(old(audit.db.Now()), entity, entityId, action, actor)
      case Success(t) => audit.db.committed == t && error == None
      case Failure(reason) =>
        audit.db.committed == old(audit.db.committed) && error == Some(Operation(Operation(DatabaseError(reason))))
    ensures !audit.db.Calm(old(audit.db.calls), audit.db.calls) ==>
      audit.db.committed == old(audit.db.committed) && error.Some? && Root(error.value) == ConnectionFailure
  {
    hide AppendAudit, Consistent, IdsOf;
    error := audit.Create(entity, entityId, action, actor);
    if error.Some? {
      audit.db.Rollback();
      return Some(Operation(error.value));
    }
    error := audit.db.Commit();
    if error.Some? {
      audit.db.Rollback();
    }
  }
}
