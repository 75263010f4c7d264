/**
 The database as the stores use it: committed tables, at most one open transaction, and a
 fault oracle that can fail any call. One operation runs at a time here; Interleaving.dfy
 lets their statements interleave.
 */
module Databases {
  import opened Wrappers
  import opened Schema
  import opened Statements
  import opened Errors
  import opened Protocol

  /** Aborted: a statement of the transaction failed, so nothing but a rollback is accepted. */
  datatype Session = Idle | Active(tables: Tables) | Aborted

  /** What the database answers to a statement: the generated id, no row hit, or an error. */
  datatype Reply = Done(id: Uuid) | NoRow | Bad(error: Error)

  class Database {
    /** Whether call number i to the database fails. */
    const faults: nat -> bool
    /** The ids the database generates, in order. */
    const uuids: nat -> Uuid

    var committed: Tables
    var session: Session
    var calls: nat
    var minted: nat

    ghost predicate Unused(t: Tables, from: nat) {
      forall j :: from <= j ==> uuids(j) !in IdsOf(t)
    }

    ghost predicate Sound(t: Tables, from: nat) {
      Consistent(t) && Unused(t, from)
    }

    ghost predicate Valid()
      reads this
    {
      && (forall i, j :: uuids(i) == uuids(j) ==> i == j)
      && Sound(committed, minted)
      && (session.Active? ==> Sound(session.tables, minted))
    }

    /** No call numbered from..to failed. */
    ghost predicate Calm(from: nat, to: nat) {
      forall i :: from <= i < to ==> !faults(i)
    }

    /** The tables a statement sees now. */
    function Now(): Tables
      reads this
    {
      if session.Active? then session.tables else committed
    }

    /** Nothing is committed; what an open transaction has staged no longer matters. */
    twostate predicate Dropped()
      reads this
    {
      && committed == old(committed)
      && (session.Idle? <==> old(session).Idle?)
      && minted >= old(minted)
    }

    /** t is what statements see from now on; it is committed if no transaction is open. */
    twostate predicate Became(t: Tables)
      reads this
    {
      if old(session).Idle? then session.Idle? && committed == t
      else session == Active(t) && committed == old(committed)
    }

    /** A fault since the old state, reported as such. */
    twostate predicate Broke(new error: Option<Error>)
      reads this
    {
      Dropped() && error.Some? && Root(error.value) == ConnectionFailure
    }

    /** The effect of one statement that was not hit by a fault. */
    twostate predicate Ran(s: Statement, reply: Reply)
      reads this
    {
      match Exec(old(Now()), s, uuids(old(minted)))
      case Applied(t) =>
        Became(t) && reply == Done(uuids(old(minted))) && minted == old(minted) + (if Mints(s) then 1 else 0)
      case NoRows => Dropped() && reply == NoRow
      case Rejected(reason) => Dropped() && reply == Bad(DatabaseError(reason))
    }

    /** A statement that was not hit by a fault, as the stores report it. */
    twostate predicate Wrote(s: Statement, new error: Option<Error>)
      reads this
    {
      match Exec(old(Now()), s, uuids(old(minted)))
      case Applied(t) => Became(t) && error == None && minted == old(minted) + (if Mints(s) then 1 else 0)
      case NoRows => Dropped() && error == Some(MissingError(s))
      case Rejected(reason) => Dropped() && error == Some(StoreError(s, reason))
    }

    /** Several statements that were not hit by a fault. */
    twostate predicate WroteAll(new todo: seq<Statement>, new error: Option<Error>)
      reads this
    {
      match RunTodo(old(Now()), todo, uuids, old(minted))
      case Success(t) => Became(t) && error == None && minted >= old(minted)
      case Failure(e) => Dropped() && error.Some? && e == Operation(error.value)
    }

    /** The writes of one mutation, not hit by a fault, before its audit row. */
    twostate predicate Worked(new m: Mutation, target: Uuid, new error: Option<Error>)
      reads this
    {
      match Work(old(Now()), m, uuids, old(minted))
      case Success((t, row)) => Became(t) && error == None && target == row
      case Failure(e) => Dropped() && error == Some(e)
    }

    /**
     A whole mutation: without a fault it is the serial one, and with a fault it fails and
     commits nothing.
     */
    twostate predicate Concluded(new m: Mutation, new actor: IdText, new r: Result<Answer, Error>)
      reads this
    {
      && session.Idle?
      && if Calm(old(calls), calls) then
           match Serial(old(committed), m, actor, uuids, old(minted))
           case Committed(t, answer) => committed == t && r == Success(answer)
           case NothingDeleted => committed == old(committed) && r == Success(Deleted(false))
           case Refused(e) => committed == old(committed) && r == Failure(e)
         else
           committed == old(committed) && r.Failure? && Root(r.error) == ConnectionFailure
    }

    /** A mutation that was not hit by a fault, without audit row. */
    twostate predicate Unlogged(new m: Mutation, new r: Result<Answer, Error>)
      reads this
    {
      match Work(old(committed), m, uuids, old(minted))
      case Success((t, row)) => committed == t && r == Success(AnswerOf(t, m, row))
      case Failure(e) =>
        && committed == old(committed)
        && r == if m.DeleteUser? && IsUserNotFound(e) then Success(Deleted(false)) else Failure(e)
    }

    /** A whole mutation without audit row: all of it, or with a fault nothing. */
    twostate predicate Transacted(new m: Mutation, new r: Result<Answer, Error>)
      reads this
    {
      && session.Idle?
      && if Calm(old(calls), calls) then Unlogged(m, r)
         else
           committed == old(committed) && r.Failure? && Root(r.error) == ConnectionFailure
    }

    /**
     A fault in a flag mutation whose first write ends with the given number of calls. In a
     transaction nothing is committed; outside one the first write is, exactly if the fault
     came after it.
     */
    twostate predicate StoppedAfter(new m: Mutation, first: nat, new error: Option<Error>)
      reads this
    {
      && error.Some? && Root(error.value) == ConnectionFailure
      && (session.Idle? <==> old(session).Idle?)
      && minted >= old(minted)
      && committed == if old(session).Idle? && Calm(old(calls), old(calls) + first)
           then Halfway(old(committed), m, uuids, old(minted)) else old(committed)
    }

    twostate predicate Stopped(new m: Mutation, new error: Option<Error>)
      reads this
    {
      StoppedAfter(m, CallsToHalfway(m), error)
    }

    /** A whole flag mutation without audit store and without transaction. */
    twostate predicate Untransacted(new m: Mutation, new r: Result<Answer, Error>)
      reads this
    {
      && session.Idle?
      && if Calm(old(calls), calls) then Unlogged(m, r) && (r.Success? ==> calls == old(calls) + CallsInAll(m))
         else r.Failure? && Stopped(m, Some(r.error))
    }

    /** A create outside any transaction: all of it, or its first statements. */
    twostate predicate Stepwise(new m: Mutation, new r: Result<Answer, Error>)
      reads this
    {
      && session.Idle?
      && (r.Success? ==> Calm(old(calls), calls) && Unlogged(m, r))
      && (r.Failure? ==>
            && (if Calm(old(calls), calls) then Work(old(committed), m, uuids, old(minted)) == Failure(r.error)
                else Root(r.error) == ConnectionFailure)
            && exists k :: committed == Begun(old(committed), m, uuids, old(minted), k))
    }

    /** A read that was not hit by a fault. */
    twostate predicate Kept()
      reads this
    {
      session == old(session) && committed == old(committed) && minted == old(minted)
    }

    /** A statement whose effect is given as a result. */
    twostate predicate Settled(new effect: Result<Tables, SqlError>, new error: Option<Error>)
      reads this
    {
      && minted == old(minted)
      && match effect
         case Success(t) => Became(t) && error == None
         case Failure(reason) => Dropped() && error == Some(DatabaseError(reason))
    }

    constructor (faults: nat -> bool, uuids: nat -> Uuid, tables: Tables)
      requires forall i, j :: uuids(i) == uuids(j) ==> i == j
      requires Consistent(tables) && forall j :: uuids(j) !in IdsOf(tables)
      ensures Valid() && session == Idle && committed == tables && calls == 0 && minted == 0
      ensures this.faults == faults && this.uuids == uuids
    {
      this.faults, this.uuids := faults, uuids;
      committed, session, calls, minted := tables, Idle, 0, 0;
    }

    method Begin() returns (error: Option<Error>)
      requires Valid() && session.Idle?
      modifies this
      ensures Valid() && calls == old(calls) + 1
      ensures Calm(old(calls), calls) ==>
        error == None && session == Active(committed) && committed == old(committed) && minted == old(minted)
      ensures !Calm(old(calls), calls) ==> Broke(error)
    {
      var failed := faults(calls);
      calls := calls + 1;
      if failed {
        return Some(ConnectionFailure);
      }
      session := Active(committed);
      return None;
    }

    /** A commit that fails has applied nothing. */
    method Commit() returns (error: Option<Error>)
      requires Valid() && session.Active?
      modifies this
      ensures Valid() && calls == old(calls) + 1 && session.Idle? && minted == old(minted)
      ensures Calm(old(calls), calls) ==> error == None && committed == old(session.tables)
      ensures !Calm(old(calls), calls) ==>
        committed == old(committed) && error.Some? && Root(error.value) == ConnectionFailure
    {
      var failed := faults(calls);
      calls := calls + 1;
      if failed {
        session := Idle;
        return Some(ConnectionFailure);
      }
      committed, session := session.tables, Idle;
      return None;
    }

    /** A rollback that cannot be delivered ends the transaction as well. */
    method Rollback()
      requires Valid()
      modifies this`session
      ensures Valid() && session.Idle?
    {
      session := Idle;
    }

    /** One statement, in the open transaction or in a transaction of its own. */
    method Execute(s: Statement) returns (reply: Reply)
      requires Valid() && !session.Aborted?
      modifies this
      ensures Valid() && calls == old(calls) + 1
      ensures Calm(old(calls), calls) ==> Ran(s, reply)
      ensures !Calm(old(calls), calls) ==> Dropped() && reply == Bad(ConnectionFailure)
    {
      hide Exec, Consistent, IdsOf;
      var failed, id := faults(calls), uuids(minted);
      calls := calls + 1;
      if failed {
        Abort();
        return Bad(ConnectionFailure);
      }
      match Exec(Now(), s, id)
      case NoRows =>
        return NoRow;
      case Rejected(reason) =>
        Abort();
        return Bad(DatabaseError(reason));
      case Applied(t) =>
        StaysSound(Now(), s, minted);
        minted := if Mints(s) then minted + 1 else minted;
        Settle(t);
        return Done(id);
    }

    /** A statement with an argument the database cannot read. */
    method Refuse(reason: SqlError) returns (error: Option<Error>)
      requires Valid() && !session.Aborted?
      modifies this
      ensures Valid() && calls == old(calls) + 1 && Dropped() && minted == old(minted)
      ensures Calm(old(calls), calls) ==> error == Some(DatabaseError(reason))
      ensures !Calm(old(calls), calls) ==> error == Some(ConnectionFailure)
    {
      var failed := faults(calls);
      calls := calls + 1;
      Abort();
      return Some(if failed then ConnectionFailure else DatabaseError(reason));
    }

    /** The insert-or-update of an assignment. */
    method UpsertAssignment(user: IdText, experiment: Uuid, variant: Uuid) returns (error: Option<Error>)
      requires Valid() && !session.Aborted?
      modifies this
      ensures Valid() && calls == old(calls) + 1
      ensures Calm(old(calls), calls) ==> Settled(UpsertText(old(Now()), user, experiment, variant), error)
      ensures !Calm(old(calls), calls) ==> Dropped() && error == Some(ConnectionFailure)
    {
      hide Upsert, Consistent, IdsOf;
      var failed := faults(calls);
      calls := calls + 1;
      if failed {
        Abort();
        return Some(ConnectionFailure);
      }
      if user.NotUuid? {
        Abort();
        return Some(DatabaseError(InvalidText));
      }
      UpsertStaysSound(Now(), user.uuid, experiment, variant, minted);
      match Upsert(Now(), user.uuid, experiment, variant)
      case Failure(reason) =>
        Abort();
        return Some(DatabaseError(reason));
      case Success(t) =>
        Settle(t);
        return None;
    }

    /** The insert into audit_logs. */
    method InsertAudit(entity: Entity, entityId: IdText, action: Action, actor: IdText) returns (error: Option<Error>)
      requires Valid() && !session.Aborted?
      modifies this
      ensures Valid() && calls == old(calls) + 1
      ensures Calm(old(calls), calls) ==> Settled(AppendAudit(old(Now()), entity, entityId, action, actor), error)
      ensures !Calm(old(calls), calls) ==> Dropped() && error == Some(ConnectionFailure)
    {
      hide AppendAudit, Consistent, IdsOf;
      var failed := faults(calls);
      calls := calls + 1;
      if failed {
        Abort();
        return Some(ConnectionFailure);
      }
      match AppendAudit(Now(), entity, entityId, action, actor)
      case Failure(reason) =>
        Abort();
        return Some(DatabaseError(reason));
      case Success(t) =>
        AuditStaysSound(Now(), entity, entityId, action, actor, minted);
        Settle(t);
        return None;
    }

    method Settle(t: Tables)
      requires !session.Aborted?
      modifies this`session, this`committed
      ensures Became(t)
    {
      if session.Active? {
        session := Active(t);
      } else {
        committed := t;
      }
    }

    method Abort()
      modifies this`session
      ensures session == if old(session).Idle? then Idle else Aborted
    {
      if !session.Idle? {
        session := Aborted;
      }
    }

    /** A SELECT: the tables it reads from. */
    method Query() returns (r: Result<Tables, Error>)
      requires Valid() && !session.Aborted?
      modifies this
      ensures Valid() && calls == old(calls) + 1
      ensures Calm(old(calls), calls) ==> r == Success(old(Now())) && Kept()
      ensures !Calm(old(calls), calls) ==> Dropped() && r == Failure(ConnectionFailure)
    {
      var failed := faults(calls);
      calls := calls + 1;
      if failed {
        Abort();
        return Failure(ConnectionFailure);
      }
      return Success(Now());
    }

    lemma UpsertStaysSound(t: Tables, user: Uuid, experiment: Uuid, variant: Uuid, n: nat)
      requires Sound(t, n)
      ensures var r := Upsert(t, user, experiment, variant); r.Success? ==> Sound(r.value, n)
    {
      UpsertKeepsConsistent(t, user, experiment, variant);
      hide Consistent;
      var r := Upsert(t, user, experiment, variant);
      if r.Success? {
        assert IdsOf(r.value) == IdsOf(t);
      }
    }

    lemma AuditStaysSound(t: Tables, entity: Entity, entityId: IdText, action: Action, actor: IdText, n: nat)
      requires Sound(t, n)
      ensures var r := AppendAudit(t, entity, entityId, action, actor); r.Success? ==> Sound(r.value, n)
    {
      var r := AppendAudit(t, entity, entityId, action, actor);
      if r.Success? {
        assert AssignmentsOk(r.value) == AssignmentsOk(t);
        assert IdsOf(r.value) == IdsOf(t);
      }
    }

    /** A new id is used once, and no statement brings in an id that is still to come. */
    lemma StaysSound(t: Tables, s: Statement, n: nat)
      requires Sound(t, n) && Exec(t, s, uuids(n)).Applied?
      requires forall i, j :: uuids(i) == uuids(j) ==> i == j
      ensures Sound(Exec(t, s, uuids(n)).tables, if Mints(s) then n + 1 else n)
      ensures Unused(t, if Mints(s) then n + 1 else n)
    {
      ExecKeepsConsistent(t, s, uuids(n));
      var t' := Exec(t, s, uuids(n)).tables;
      hide Consistent;
      assert IdsOf(t') <= IdsOf(t) + (if Mints(s) then {uuids(n)} else {});
    }
  }
}
