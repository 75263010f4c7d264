/** The experiments service of internal/experiments/service.go. */
module ExperimentServices {
  import opened Wrappers
  import opened Schema
  import opened Statements
  import opened Errors
  import opened Auth
  import opened Weights
  import opened Protocol
  import opened Databases
  import opened ExperimentStores
  import opened AuditStores
  import opened ExperimentOutcomes

  class ExperimentService {
    const store: ExperimentStore
    /** Without an audit store a creation still runs in one transaction, but logs nothing. */
    const audit: AuditStore?
    /** Whether the store can begin transactions and be bound to one. */
    const transactional: bool

    constructor (db: Database, audited: bool, transactional: bool)
      requires audited ==> transactional
      ensures store.db == db && !store.inTx && fresh(store) && this.transactional == transactional
      ensures if audited then audit != null && audit.db == db && !audit.inTx && fresh(audit) else audit == null
    {
      this.transactional := transactional;
      store := new ExperimentStore(db, false);
      if audited {
        audit := new AuditStore(db, false);
      } else {
        audit := null;
      }
    }

    ghost predicate Ready()
      reads store.db
    {
      && !store.inTx && store.Ready()
      && (audit != null ==> audit.db == store.db && !audit.inTx && transactional)
    }

    /** Actor, transaction, and the two stores bound to it. */
    method PrepareAuditTx(ctx: Context)
      returns (r: Result<IdText, Error>, txStore: ExperimentStore, txAudit: AuditStore?)
      requires Ready() && audit != null
      modifies store.db
      ensures store.db.Valid() && store.db.calls >= old(store.db.calls)
      ensures ActorIdFromContext(ctx) == None ==> r == Failure(MissingActor) && unchanged(store.db)
      ensures ActorIdFromContext(ctx) != None && store.db.Calm(old(store.db.calls), store.db.calls) ==>
        && r == Success(ActorIdFromContext(ctx).value)
        && store.db.session == Active(store.db.committed)
        && store.db.committed == old(store.db.committed) && store.db.minted == old(store.db.minted)
      ensures ActorIdFromContext(ctx) != None && !store.db.Calm(old(store.db.calls), store.db.calls) ==>
        r.Failure? && store.db.Broke(Some(r.error))
      ensures r.Success? ==>
        && txStore.db == store.db && txStore.inTx
        && txAudit != null && txAudit.db == store.db && txAudit.inTx
    {
      txStore := store;
      r, txAudit := PrepareWriteTx(ctx, audit);
      if r.Success? {
        txStore := new ExperimentStore(store.db, true);
      }
    }

    method CreateExperiment(ctx: Context, input: CreateExperimentInput) returns (r: Result<Answer, Error>)
      requires Ready()
      modifies store.db
      ensures store.db.Valid() && store.db.calls >= old(store.db.calls)
      ensures audit != null ==>
        match ActorIdFromContext(ctx)
        case None => r == Failure(MissingActor) && unchanged(store.db)
        case Some(actor) => store.db.Concluded(Mutation.CreateExperiment(input), actor, r)
      ensures audit == null && transactional ==> store.db.Transacted(Mutation.CreateExperiment(input), r)
      ensures audit == null && !transactional ==> store.db.Stepwise(Mutation.CreateExperiment(input), r)
    {
      hide Decide, RunPlan, AppendAudit, Consistent, IdsOf, Begun;
      if audit == null {
        if transactional {
          r := CreateUnaudited(input);
          return r;
        }
        var id, error := CreateExperimentWithStore(store, input);
        return if error.Some? then Failure(error.value)
          else Success(ExperimentAnswer(id, ExperimentRow(input.key, input.environment)));
      }
      var prepared, txStore, txAudit := PrepareAuditTx(ctx);
      if prepared.Failure? {
        return Failure(prepared.error);
      }
      var id, error := CreateExperimentWithStore(txStore, input);
      if error.Some? {
        store.db.Rollback();
        return Failure(error.value);
      }
      error := LogAndCommit(txAudit, Entity.Experiment, Canonical(id), Action.Create, prepared.value);
      if error.Some? {
        return Failure(error.value);
      }
      return Success(ExperimentAnswer(id, ExperimentRow(input.key, input.environment)));
    }

    /** The path of a service without audit store, in a transaction the store begins itself. */
    method CreateUnaudited(input: CreateExperimentInput) returns (r: Result<Answer, Error>)
      requires Ready()
      modifies store.db
      ensures store.db.Valid() && store.db.calls >= old(store.db.calls)
      ensures store.db.Transacted(Mutation.CreateExperiment(input), r)
    {
      hide Decide, RunPlan, Consistent, IdsOf;
      var error := store.BeginTx();
      if error.Some? {
        return Failure(error.value);
      }
      var txStore := new ExperimentStore(store.db, true);
      var id;
      id, error := CreateExperimentWithStore(txStore, input);
      if error.Some? {
        store.db.Rollback();
        return Failure(error.value);
      }
      error := store.db.Commit();
      if error.Some? {
        store.db.Rollback();
        return Failure(error.value);
      }
      return Success(ExperimentAnswer(id, ExperimentRow(input.key, input.environment)));
    }

    method CreateExperimentWithStore(
      store: ExperimentStore, input: CreateExperimentInput) returns (id: Uuid, error: Option<Error>)
      requires store.Ready()
      modifies store.db
      ensures store.db.Valid() && store.db.calls >= old(store.db.calls)
      ensures store.db.Calm(old(store.db.calls), store.db.calls) && (store.inTx || error == None) ==>
        store.db.Worked(Mutation.CreateExperiment(input), id, error)
      ensures !store.db.Calm(old(store.db.calls), store.db.calls) ==>
        error.Some? && Root(error.value) == ConnectionFailure && (store.inTx ==> store.db.Broke(error))
      ensures !store.inTx ==> store.db.session.Idle?
      ensures !store.inTx && error.Some? ==>
        && (store.db.Calm(old(store.db.calls), store.db.calls) ==>
              Work(old(store.db.committed), Mutation.CreateExperiment(input), store.db.uuids, old(store.db.minted))
              == Failure(error.value))
        && exists k :: store.db.committed == Begun(
             old(store.db.committed), Mutation.CreateExperiment(input), store.db.uuids, old(store.db.minted), k)
      ensures error == None ==>
        && id in store.db.Now().experiments
        && store.db.Now().experiments[id] == ExperimentRow(input.key, input.environment)
    {
      hide RunTodo, Exec, Consistent, IdsOf, UniqueBy, Verdict, Begun;
      ghost var m := Mutation.CreateExperiment(input);
      BegunNothing(store.db.Now(), m, store.db.uuids, store.db.minted);
      var verdict := ValidateVariantWeights(input.variants);
      if verdict.Failure? {
        return 0, Some(verdict.error);
      }
      error := EnsureUniqueExperiment(store, input.key, input.environment);
      if error.Some? {
        return 0, error;
      }
      var row := ExperimentRow(input.key, input.environment);
      NeverMisses(InsertExperiment(row));
      ghost var t, n := store.db.Now(), store.db.minted;
      id, error := store.CreateExperiment(row);
      if error.Some? {
        return 0, Some(Operation(error.value));
      }
      CreatedExperimentStays(t, row, store.db.uuids(n), input.variants, store.db.uuids, store.db.minted);
      error := PersistVariants(store, id, input.variants);
      if error.Some? {
        if !store.inTx {
          ghost var t' := Exec(t, InsertExperiment(row), id).tables;
          ghost var k :| 0 <= k <= |input.variants|
            && RunTodo(t', VariantInserts(id, input.variants)[..k], store.db.uuids, n + 1)
              == Success(store.db.committed);
          BegunWithVariants(t, input, store.db.uuids, n, k);
        }
        return 0, error;
      }
    }

    method EnsureUniqueExperiment(
      store: ExperimentStore, key: string, environment: string) returns (error: Option<Error>)
      requires store.Ready()
      modifies store.db
      ensures store.db.Valid() && store.db.calls > old(store.db.calls)
      ensures store.db.Calm(old(store.db.calls), store.db.calls) ==>
        && store.db.Kept()
        && error == if FindExperiment(old(store.db.Now()).experiments, key, environment).Some?
                    then Some(DuplicateExperiment(key, environment)) else None
      ensures !store.db.Calm(old(store.db.calls), store.db.calls) ==> store.db.Broke(error)
    {
      var existing;
      existing, error := store.GetExperimentByKeyAndEnvironment(key, environment);
      if error.Some? {
        return Some(Operation(error.value));
      }
      if existing.Some? {
        return Some(DuplicateExperiment(key, environment));
      }
    }

    method PersistVariants(
      store: ExperimentStore, experiment: Uuid, inputs: seq<VariantInput>) returns (error: Option<Error>)
      requires store.Ready()
      modifies store.db
      ensures store.db.Valid() && store.db.calls >= old(store.db.calls) && store.db.minted >= old(store.db.minted)
      ensures store.db.Calm(old(store.db.calls), store.db.calls) ==>
        match RunTodo(old(store.db.Now()), VariantInserts(experiment, inputs), store.db.uuids, old(store.db.minted))
        case Success(t) => store.db.Became(t) && error == None
        case Failure(e) => (store.inTx ==> store.db.Dropped()) && error == Some(e)
      ensures !store.db.Calm(old(store.db.calls), store.db.calls) ==>
        error.Some? && Root(error.value) == ConnectionFailure && (store.inTx ==> store.db.Broke(error))
      ensures !store.inTx ==>
        && store.db.session.Idle?
        && exists k :: 0 <= k <= |inputs|
             && RunTodo(old(store.db.committed), VariantInserts(experiment, inputs)[..k], store.db.uuids,
                  old(store.db.minted)) == Success(store.db.committed)
    {
      hide Exec, Consistent, IdsOf, UniqueBy, RunTodo, VariantInserts;
      ghost var todo := VariantInserts(experiment, inputs);
      ghost var t, n := store.db.Now(), store.db.minted;
      assert todo[0..] == todo && todo[..0] == [];
      NothingToRun(t, store.db.uuids, n);
      for i := 0 to |inputs|
        invariant store.Ready() && store.db.calls >= old(store.db.calls)
        invariant store.inTx ==> store.db.committed == old(store.db.committed)
        invariant store.db.minted == n + i
        invariant store.db.Calm(old(store.db.calls), store.db.calls)
        invariant RunTodo(t, todo, store.db.uuids, n) == RunTodo(store.db.Now(), todo[i..], store.db.uuids, n + i)
        invariant RunTodo(t, todo[..i], store.db.uuids, n) == Success(store.db.Now())
      {
        var row := VariantRow(experiment, inputs[i].name, inputs[i].weight);
        assert todo[i..][0] == InsertVariant(row) && todo[i..][1..] == todo[i + 1..];
        assert todo[..i + 1] == todo[..i] + [InsertVariant(row)];
        NeverMisses(InsertVariant(row));
        RunMintSnoc(t, todo[..i], InsertVariant(row), store.db.uuids, n);
        RunMintHead(store.db.Now(), todo[i..], store.db.uuids, n + i);
        error := store.CreateVariant(row);
        if error.Some? {
          return Some(Operation(error.value));
        }
      }
      assert todo[..|inputs|] == todo && todo[|inputs|..] == [];
      NothingToRun(store.db.Now(), store.db.uuids, n + |inputs|);
      return None;
    }

    /** Three reads and an upsert, each in a transaction of its own. */
    method GetAssignment(hash: Hash, user: IdText, key: string, environment: string) returns (r: Result<Variant, Error>)
      requires Ready()
      modifies store.db
      ensures store.db.Valid() && store.db.session.Idle? && store.db.calls >= old(store.db.calls)
      ensures if store.db.Calm(old(store.db.calls), store.db.calls)
        then match Serve(old(store.db.committed), hash, user, key, environment)
          case Success((t, v)) => store.db.committed == t && r == Success(v)
          case Failure(e) => store.db.committed == old(store.db.committed) && r == Failure(e)
        else store.db.committed == old(store.db.committed) && r.Failure? && Root(r.error) == ConnectionFailure
      ensures r.Success? ==>
        Answers(old(store.db.committed), store.db.committed, hash, user, key, environment, r.value)
    {
      hide Answers, AssignmentRefused, Upsert, Consistent, IdsOf, UniqueBy, VariantsOf, FindExperiment, Assigned,
        VariantIndex;
      GetAssignmentOutcome(store.db.committed, hash, user, key, environment);
      if user == EMPTY_ID {
        return Failure(InvalidUserId);
      }
      var e, error := store.GetExperimentByKeyAndEnvironment(key, environment);
      if error.Some? {
        return Failure(Operation(error.value));
      }
      if e == None {
        return Failure(ExperimentNotFound(key, environment));
      }
      var list;
      list, error := store.GetVariantsByExperimentId(e.value);
      if error.Some? {
        return Failure(Operation(error.value));
      }
      if |list| == 0 {
        return Failure(NoVariantsFound(key, environment));
      }
      var existing;
      existing, error := store.GetAssignment(user, e.value);
      if error.Some? {
        return Failure(Operation(error.value));
      }
      if existing.Some? {
        match VariantIndex(list, existing.value)
        case Some(i) => return Success(list[i]);
        case None => return Failure(UnknownVariant(existing.value));
      }
      var chosen := AssignVariantByWeight(hash, user, e.value, list);
      error := store.UpsertAssignment(user, e.value, chosen.id);
      if error.Some? {
        return Failure(Operation(error.value));
      }
      return Success(chosen);
    }
  }

  /** The variants of a new experiment leave its row alone. */
  lemma NothingToRun(t: Tables, ids: nat -> Uuid, n: nat)
    ensures RunTodo(t, [], ids, n) == Success(t)
  {
  }

  /** What a creation outside any transaction leaves after its row and k variants. */
  lemma BegunWithVariants(t: Tables, input: CreateExperimentInput, ids: nat -> Uuid, n: nat, k: nat)
    requires var row := ExperimentRow(input.key, input.environment);
      && Decide(t, Mutation.CreateExperiment(input)) == Success(NewRow(InsertExperiment(row)))
      && Exec(t, InsertExperiment(row), ids(n)).Applied? && k <= |input.variants|
      && var t' := Exec(t, InsertExperiment(row), ids(n)).tables;
         RunTodo(t', VariantInserts(ids(n), input.variants)[..k], ids, n + 1).Success?
    ensures var t' := Exec(t, InsertExperiment(ExperimentRow(input.key, input.environment)), ids(n)).tables;
      Begun(t, Mutation.CreateExperiment(input), ids, n, k + 1)
      == RunTodo(t', VariantInserts(ids(n), input.variants)[..k], ids, n + 1).value
  {
    hide Decide, Exec, RunTodo;
  }

  lemma CreatedExperimentStays(
    t: Tables, row: ExperimentRow, id: Uuid, variants: seq<VariantInput>, ids: nat -> Uuid, n: nat)
    requires Exec(t, InsertExperiment(row), id).Applied?
    ensures var r := RunTodo(Exec(t, InsertExperiment(row), id).tables, VariantInserts(id, variants), ids, n);
      r.Success? ==> id in r.value.experiments && r.value.experiments[id] == row
  {
    ChildrenKeepParents(Exec(t, InsertExperiment(row), id).tables, VariantInserts(id, variants), ids, n);
  }

  /** A call, whoever makes it, changes no table but the assignments. */
  lemma ServeTouchesOnlyAssignments(t: Tables, hash: Hash, user: IdText, key: string, environment: string)
    ensures var r := Serve(t, hash, user, key, environment);
      r.Success? ==> r.value.0 == t.(assignments := r.value.0.assignments)
  {
    hide VariantsOf, FindExperiment, Assigned, VariantIndex;
  }

  /** Once served, a user gets the same variant again, in whatever spelling and under whatever hash. */
  lemma ServeAgain(
    t: Tables, hash: Hash, user: IdText, key: string, environment: string, hash': Hash, user': IdText)
    requires Serve(t, hash, user, key, environment).Success?
    requires ParseUuid(user') == ParseUuid(user)
    ensures var (t', v) := Serve(t, hash, user, key, environment).value;
      Serve(t', hash', user', key, environment) == Success((t', v))
  {
    hide Assigned, FindExperiment, VariantsOf, VariantIndex;
    var (t', v) := Serve(t, hash, user, key, environment).value;
    var e := FindExperiment(t.experiments, key, environment).value;
    var list := VariantsOf(t.variants, e);
    assert t'.variants == t.variants && t'.experiments == t.experiments;
    assert t'.assignments[(user.uuid, e)] == v.id && v in list;
    var i := VariantIndex(list, v.id);
    assert i.Some? && list[i.value].id == v.id;
    assert list[i.value] == v;
  }
}
