/** The experiments store of internal/experiments/postgres.go. */
module ExperimentStores {
  import opened Wrappers
  import opened Schema
  import opened Statements
  import opened Errors
  import opened Databases

  class ExperimentStore {
    const db: Database
    /** Whether the store works in the transaction that is open, and cannot begin one. */
    const inTx: bool

    constructor (db: Database, inTx: bool)
      ensures this.db == db && this.inTx == inTx
    {
      this.db, this.inTx := db, inTx;
    }

    ghost predicate Ready()
      reads db
    {
      db.Valid() && if inTx then db.session.Active? else db.session.Idle?
    }

    method BeginTx() returns (error: Option<Error>)
      requires Ready()
      modifies db
      ensures db.Valid() && db.calls >= old(db.calls)
      ensures inTx ==> error == Some(BeginUnsupported) && db.Kept() && db.calls == old(db.calls)
      ensures !inTx && db.Calm(old(db.calls), db.calls) ==>
        && error == None && db.session == Active(db.committed)
        && db.committed == old(db.committed) && db.minted == old(db.minted)
      ensures !inTx && !db.Calm(old(db.calls), db.calls) ==> db.Broke(error)
    {
      if inTx {
        return Some(BeginUnsupported);
      }
      error := db.Begin();
      if error.Some? {
        return Some(Operation(error.value));
      }
    }

    method CreateExperiment(row: ExperimentRow) returns (id: Uuid, error: Option<Error>)
      requires Ready()
      modifies db
      ensures db.Valid() && db.calls > old(db.calls)
      ensures db.Calm(old(db.calls), db.calls) ==> db.Wrote(InsertExperiment(row), error)
      ensures !db.Calm(old(db.calls), db.calls) ==> db.Broke(error)
      ensures error == None ==> id == db.uuids(old(db.minted))
    {
      hide Consistent, IdsOf, Exec;
      NeverMisses(InsertExperiment(row));
      var reply := db.Execute(InsertExperiment(row));
      match reply
      case Done(generated) => return generated, None;
      case Bad(e) =>
        if e == DatabaseError(UniqueViolation) {
          return 0, Some(DuplicateExperiment(row.key, row.environment));
        }
        return 0, Some(Operation(e));
    }

    method GetExperimentByKeyAndEnvironment(
      key: string, environment: string) returns (id: Option<Uuid>, error: Option<Error>)
      requires Ready()
      modifies db
      ensures db.Valid() && db.calls > old(db.calls)
      ensures db.Calm(old(db.calls), db.calls) ==>
        db.Kept() && error == None && id == FindExperiment(old(db.Now()).experiments, key, environment)
      ensures !db.Calm(old(db.calls), db.calls) ==> db.Broke(error)
    {
      var r := db.Query();
      match r
      case Failure(e) => return None, Some(Operation(e));
      case Success(t) => return FindExperiment(t.experiments, key, environment), None;
    }

    method CreateVariant(row: VariantRow) returns (error: Option<Error>)
      requires Ready()
      modifies db
      ensures db.Valid() && db.calls > old(db.calls)
      ensures db.Calm(old(db.calls), db.calls) ==> db.Wrote(InsertVariant(row), error)
      ensures !db.Calm(old(db.calls), db.calls) ==> db.Broke(error)
    {
      hide Consistent, IdsOf, Exec;
      NeverMisses(InsertVariant(row));
      var reply := db.Execute(InsertVariant(row));
      match reply
      case Done(_) => return None;
      case Bad(e) => return Some(Operation(e));
    }

    method GetVariantsByExperimentId(experiment: Uuid) returns (list: seq<Variant>, error: Option<Error>)
      requires Ready()
      modifies db
      ensures db.Valid() && db.calls > old(db.calls)
      ensures db.Calm(old(db.calls), db.calls) ==>
        db.Kept() && error == None && list == VariantsOf(old(db.Now()).variants, experiment)
      ensures !db.Calm(old(db.calls), db.calls) ==> db.Broke(error)
    {
      hide VariantsOf;
      var r := db.Query();
      match r
      case Failure(e) => return [], Some(Operation(e));
      case Success(t) =>
        list := ScanVariants(t.variants, experiment);
        return list, None;
    }

    method GetAssignment(user: IdText, experiment: Uuid) returns (variant: Option<Uuid>, error: Option<Error>)
      requires Ready()
      modifies db
      ensures db.Valid() && db.calls > old(db.calls)
      ensures db.Calm(old(db.calls), db.calls) ==>
        && match ParseUuid(user)
           case None => db.Dropped() && error == Some(Operation(DatabaseError(InvalidText)))
           case Some(u) =>
             && db.Kept() && error == None
             && variant == if (u, experiment) in old(db.Now()).assignments
                           then Some(old(db.Now()).assignments[(u, experiment)]) else None
      ensures !db.Calm(old(db.calls), db.calls) ==> db.Broke(error)
    {
      if user.NotUuid? {
        error := db.Refuse(InvalidText);
        return None, Some(Operation(error.value));
      }
      var r := db.Query();
      match r
      case Failure(e) => return None, Some(Operation(e));
      case Success(t) =>
        if (user.uuid, experiment) in t.assignments {
          return Some(t.assignments[(user.uuid, experiment)]), None;
        }
        return None, None;
    }

    method UpsertAssignment(user: IdText, experiment: Uuid, variant: Uuid) returns (error: Option<Error>)
      requires Ready()
      modifies db
      ensures db.Valid() && db.calls > old(db.calls)
      ensures db.Calm(old(db.calls), db.calls) ==>
        match UpsertText(old(db.Now()), user, experiment, variant)
        case Success(t) => db.Became(t) && error == None
        case Failure(reason) => db.Dropped() && error == Some(Operation(DatabaseError(reason)))
      ensures !db.Calm(old(db.calls), db.calls) ==> db.Broke(error)
    {
      error := db.UpsertAssignment(user, experiment, variant);
      if error.Some? {
        return Some(Operation(error.value));
      }
    }
  }

  /** The rows of the cursor are appended one by one, in the order of their ids. */
  method ScanVariants(variants: map<Uuid, VariantRow>, experiment: Uuid) returns (list: seq<Variant>)
    ensures list == VariantsOf(variants, experiment)
  {
    list := [];
    var ids := Sorted(VariantIds(variants, experiment));
    assert forall i :: 0 <= i < |ids| ==> ids[i] in VariantIds(variants, experiment);
    hide Sorted;
    for i := 0 to |ids|
      invariant |list| == i
      invariant forall j :: 0 <= j < i ==> list[j] == Variant(ids[j], variants[ids[j]])
    {
      list := list + [Variant(ids[i], variants[ids[i]])];
    }
  }
}
