/** The flags store of internal/flags/postgres.go. */
module FlagStores {
  import opened Wrappers
  import opened Schema
  import opened Statements
  import opened Errors
  import opened Protocol
  import opened Databases

  /** A flag in memory; the service edits it before it is written back. */
  class Flag {
    const id: Uuid
    var key: string
    var description: Option<string>
    var enabled: bool
    var environment: string
    var strategy: Strategy

    constructor (id: Uuid, row: FlagRow)
      ensures this.id == id && Row() == row
    {
      this.id := id;
      key, description, enabled, environment, strategy :=
        row.key, row.description, row.enabled, row.environment, row.strategy;
    }

    function Row(): FlagRow
      reads this
    {
      FlagRow(key, description, enabled, environment, strategy)
    }
  }

  class FlagStore {
    const db: Database
    /** Whether the store works in the transaction that is open, and cannot begin one. */
    const inTx: bool

    constructor (db: Database, inTx: bool)
      ensures this.db == db && this.inTx == inTx
    {
      this.db, this.inTx := db, inTx;
    }

    ghost predicate Ready()
      reads db
    {
      db.Valid() && if inTx then db.session.Active? else db.session.Idle?
    }

    method Create(row: FlagRow) returns (flag: Flag?, error: Option<Error>)
      requires Ready()
      modifies db
      ensures db.Valid() && db.calls == old(db.calls) + 1
      ensures db.Calm(old(db.calls), db.calls) ==> db.Wrote(InsertFlag(row), error)
      ensures !db.Calm(old(db.calls), db.calls) ==> db.Broke(error)
      ensures error == None ==> flag != null && fresh(flag) && flag.id == db.uuids(old(db.minted)) && flag.Row() == row
    {
      hide Consistent, IdsOf, Exec;
      NeverMisses(InsertFlag(row));
      var reply := db.Execute(InsertFlag(row));
      match reply
      case Done(id) =>
        flag := new Flag(id, row);
        return flag, None;
      case Bad(e) =>
        if e == DatabaseError(UniqueViolation) {
          return null, Some(DuplicateKey(row.key, row.environment));
        }
        return null, Some(Operation(e));
    }

    method GetByKeyAndEnvironment(key: string, environment: string) returns (flag: Flag?, error: Option<Error>)
      requires Ready()
      modifies db
      ensures db.Valid() && db.calls == old(db.calls) + 1
      ensures db.Calm(old(db.calls), db.calls) ==> db.Kept() && error == None
      ensures !db.Calm(old(db.calls), db.calls) ==> db.Broke(error)
      ensures error == None ==>
        match FindFlag(old(db.Now()).flags, key, environment)
        case None => flag == null
        case Some(f) => flag != null && fresh(flag) && flag.id == f && flag.Row() == old(db.Now()).flags[f]
    {
      var r := db.Query();
      match r
      case Failure(e) =>
        return null, Some(Operation(e));
      case Success(t) =>
        match FindFlag(t.flags, key, environment)
        case None =>
          return null, None;
        case Some(f) =>
          flag := new Flag(f, t.flags[f]);
          return flag, None;
    }

    method Update(flag: Flag) returns (error: Option<Error>)
      requires Ready()
      modifies db
      ensures db.Valid() && db.calls == old(db.calls) + 1
      ensures db.Calm(old(db.calls), db.calls) ==> db.Wrote(Statement.UpdateFlag(flag.id, flag.Row()), error)
      ensures !db.Calm(old(db.calls), db.calls) ==> db.Broke(error)
    {
      var reply := db.Execute(Statement.UpdateFlag(flag.id, flag.Row()));
      match reply
      case Done(_) => return None;
      case NoRow => return Some(FlagIdNotFound(flag.id));
      case Bad(e) => return Some(Operation(e));
    }

    method GetRulesByFlagId(flagId: Uuid) returns (rules: seq<RuleRow>, error: Option<Error>)
      requires Ready()
      modifies db
      ensures db.Valid() && db.calls == old(db.calls) + 1
      ensures db.Calm(old(db.calls), db.calls) ==>
        db.Kept() && error == None && rules == RulesOf(old(db.Now()).rules, flagId)
      ensures !db.Calm(old(db.calls), db.calls) ==> db.Broke(error)
    {
      hide RulesOf;
      var r := db.Query();
      match r
      case Failure(e) => return [], Some(Operation(e));
      case Success(t) =>
        rules := ScanRules(t.rules, flagId);
        return rules, None;
    }

    method Delete(flagId: Uuid) returns (error: Option<Error>)
      requires Ready()
      modifies db
      ensures db.Valid() && db.calls == old(db.calls) + 1
      ensures db.Calm(old(db.calls), db.calls) ==> db.Wrote(Statement.DeleteFlag(flagId), error)
      ensures !db.Calm(old(db.calls), db.calls) ==> db.Broke(error)
    {
      var reply := db.Execute(Statement.DeleteFlag(flagId));
      match reply
      case Done(_) => return None;
      case NoRow => return Some(FlagIdNotFound(flagId));
      case Bad(e) => return Some(Operation(e));
    }

    /** In the open transaction, or all-or-nothing in one of its own. */
    method ReplaceRulesByFlagId(flagId: Uuid, rules: seq<RuleRow>) returns (error: Option<Error>)
      requires Ready()
      modifies db
      ensures db.Valid() && old(db.calls) < db.calls <= old(db.calls) + (if inTx then 1 else 3) + |rules|
      ensures error == None ==> db.calls == old(db.calls) + (if inTx then 1 else 3) + |rules|
      ensures db.Calm(old(db.calls), db.calls) ==>
        db.WroteAll([DeleteRules(flagId)] + InsertsOf(ForFlag(flagId, rules)), error)
      ensures !db.Calm(old(db.calls), db.calls) ==> db.Broke(error)
      decreases if inTx then 0 else 1
    {
      hide RunTodo, InsertsOf;
      if inTx {
        error := ReplaceInPlace(flagId, rules);
        return error;
      }
      error := db.Begin();
      if error.Some? {
        return Some(Operation(error.value));
      }
      var txStore := new FlagStore(db, true);
      error := txStore.ReplaceRulesByFlagId(flagId, rules);
      if error.Some? {
        db.Rollback();
        return error;
      }
      error := db.Commit();
      if error.Some? {
        db.Rollback();
        return Some(Operation(error.value));
      }
      return None;
    }

    method ReplaceInPlace(flagId: Uuid, rules: seq<RuleRow>) returns (error: Option<Error>)
      requires Ready() && inTx
      modifies db
      ensures db.Valid() && old(db.calls) < db.calls <= old(db.calls) + 1 + |rules|
      ensures error == None ==> db.calls == old(db.calls) + 1 + |rules|
      ensures db.Calm(old(db.calls), db.calls) ==>
        db.WroteAll([DeleteRules(flagId)] + InsertsOf(ForFlag(flagId, rules)), error)
      ensures !db.Calm(old(db.calls), db.calls) ==> db.Broke(error)
    {
      hide Exec, Consistent, IdsOf, UniqueBy;
      ghost var inserts := InsertsOf(ForFlag(flagId, rules));
      ghost var todo := [DeleteRules(flagId)] + inserts;
      assert todo[0] == DeleteRules(flagId) && todo[1..] == inserts;
      hide InsertsOf, ForFlag;
      NeverMisses(DeleteRules(flagId));
      var reply := db.Execute(DeleteRules(flagId));
      if reply.Bad? {
        return Some(Operation(reply.error));
      }
      error := InsertRules(flagId, rules);
    }

    method InsertRules(flagId: Uuid, rules: seq<RuleRow>) returns (error: Option<Error>)
      requires Ready() && inTx
      modifies db
      ensures db.Valid() && old(db.calls) <= db.calls <= old(db.calls) + |rules|
      ensures error == None ==> db.calls == old(db.calls) + |rules|
      ensures db.Calm(old(db.calls), db.calls) ==> db.WroteAll(InsertsOf(ForFlag(flagId, rules)), error)
      ensures !db.Calm(old(db.calls), db.calls) ==> db.Broke(error)
    {
      hide Exec, Consistent, IdsOf, UniqueBy;
      ghost var todo := InsertsOf(ForFlag(flagId, rules));
      assert todo[0..] == todo;
      for i := 0 to |rules|
        invariant db.Valid() && db.session.Active? && db.calls == old(db.calls) + i
        invariant db.committed == old(db.committed) && db.minted >= old(db.minted)
        invariant db.Calm(old(db.calls), db.calls)
        invariant RunTodo(old(db.Now()), todo, db.uuids, old(db.minted))
          == RunTodo(db.Now(), todo[i..], db.uuids, db.minted)
      {
        var row := rules[i].(flag := flagId);
        assert todo[i..][0] == InsertRule(row) && todo[i..][1..] == todo[i + 1..];
        NeverMisses(InsertRule(row));
        var reply := db.Execute(InsertRule(row));
        if reply.Bad? {
          return Some(Operation(reply.error));
        }
      }
      return None;
    }
  }

  /** The rows of the cursor are appended one by one, in the order of their ids. */
  method ScanRules(rows: map<Uuid, RuleRow>, flagId: Uuid) returns (rules: seq<RuleRow>)
    ensures rules == RulesOf(rows, flagId)
  {
    rules := [];
    var ids := Sorted(RuleIds(rows, flagId));
    assert forall i :: 0 <= i < |ids| ==> ids[i] in RuleIds(rows, flagId);
    hide Sorted;
    for i := 0 to |ids|
      invariant |rules| == i
      invariant forall j :: 0 <= j < i ==> rules[j] == rows[ids[j]]
    {
      rules := rules + [rows[ids[i]]];
    }
  }
}
