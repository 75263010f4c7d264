/**
 The GraphQL resolvers: the role gate in front of each operation, and the actor every
 mutation passes on to its service.
 */
module Resolvers {
  import opened Wrappers
  import opened Schema
  import opened Errors
  import opened Auth
  import opened FlagRules
  import opened Weights
  import opened Protocol
  import opened Evaluation
  import opened Databases
  import opened FlagServices
  import opened UserServices
  import opened ExperimentServices

  const EVERYONE: seq<Role> := [Admin, Developer, Viewer]

  class Resolver {
    const db: Database
    const flags: FlagService
    const users: UserService
    /** The resolvers also work without an experiments service. */
    const experiments: ExperimentService?

    /** All services are wired with an audit store. */
    constructor (db: Database, withExperiments: bool)
      requires db.Valid() && db.session.Idle?
      ensures this.db == db && Ready() && (experiments != null <==> withExperiments)
    {
      this.db := db;
      flags := new FlagService(db, true);
      users := new UserService(db, true);
      if withExperiments {
        experiments := new ExperimentService(db, true, true);
      } else {
        experiments := null;
      }
    }

    ghost predicate Ready()
      reads db
    {
      && db.Valid() && db.session.Idle?
      && flags.store.db == db && flags.Ready() && flags.audit != null
      && users.store.db == db && users.Ready() && users.audit != null
      && (experiments != null ==> experiments.store.db == db && experiments.Ready() && experiments.audit != null)
    }

    /**
     What a mutation's resolver promises: refused at the gate, or carried out in the actor's
     name. Past the gate an experiment is refused when there is no service for it.
     */
    twostate predicate Gated(new m: Mutation, new ctx: Context, new r: Result<Answer, Error>)
      reads this, db
    {
      if m.CreateExperiment? && experiments == null then
        r == Failure(Missing(ctx, [Admin, Developer])) && unchanged(db)
      else
        match Admit(m, ctx.claims)
        case Failure(e) => r == Failure(e) && unchanged(db)
        case Success(actor) => db.Concluded(m, actor, r)
    }

    /** The error of a call to a service that is not there: the gate comes first. */
    function Missing(ctx: Context, allowed: seq<Role>): Error {
      match RequireRole(ctx, allowed)
      case Failure(e) => e
      case Success(_) => NotConfigured
    }

    method CreateFlag(ctx: Context, input: CreateFlagInput) returns (r: Result<Answer, Error>)
      requires Ready()
      modifies db
      ensures Ready() && Gated(Mutation.CreateFlag(input), ctx, r)
    {
      var actor := RequireRole(ctx, [Admin, Developer]);
      if actor.Failure? {
        return Failure(actor.error);
      }
      r := flags.CreateFlag(WithActorId(ctx, actor.value), input);
    }

    method UpdateFlag(ctx: Context, input: UpdateFlagInput) returns (r: Result<Answer, Error>)
      requires Ready()
      modifies db
      ensures Ready() && Gated(Mutation.UpdateFlag(input), ctx, r)
    {
      var actor := RequireRole(ctx, [Admin, Developer]);
      if actor.Failure? {
        return Failure(actor.error);
      }
      r := flags.UpdateFlag(WithActorId(ctx, actor.value), input);
    }

    method DeleteFlag(ctx: Context, key: string, environment: string) returns (r: Result<Answer, Error>)
      requires Ready()
      modifies db
      ensures Ready() && Gated(Mutation.DeleteFlag(key, environment), ctx, r)
    {
      var actor := RequireRole(ctx, [Admin, Developer]);
      if actor.Failure? {
        return Failure(actor.error);
      }
      r := flags.DeleteFlag(WithActorId(ctx, actor.value), key, environment);
    }

    method CreateUser(ctx: Context, input: CreateUserInput) returns (r: Result<Answer, Error>)
      requires Ready()
      modifies db
      ensures Ready() && Gated(Mutation.CreateUser(input), ctx, r)
    {
      var actor := RequireRole(ctx, [Admin]);
      if actor.Failure? {
        return Failure(actor.error);
      }
      r := users.CreateUser(WithActorId(ctx, actor.value), input);
    }

    method UpdateUser(ctx: Context, input: UpdateUserInput) returns (r: Result<Answer, Error>)
      requires Ready()
      modifies db
      ensures Ready() && Gated(Mutation.UpdateUser(input), ctx, r)
    {
      var actor := RequireRole(ctx, [Admin]);
      if actor.Failure? {
        return Failure(actor.error);
      }
      r := users.UpdateUser(WithActorId(ctx, actor.value), input);
    }

    method DeleteUser(ctx: Context, id: IdText) returns (r: Result<Answer, Error>)
      requires Ready()
      modifies db
      ensures Ready() && Gated(Mutation.DeleteUser(id), ctx, r)
    {
      var actor := RequireRole(ctx, [Admin]);
      if actor.Failure? {
        return Failure(actor.error);
      }
      r := users.DeleteUser(WithActorId(ctx, actor.value), id);
    }

    method CreateExperiment(ctx: Context, input: CreateExperimentInput) returns (r: Result<Answer, Error>)
      requires Ready()
      modifies db
      ensures Ready() && Gated(Mutation.CreateExperiment(input), ctx, r)
    {
      var actor := RequireRole(ctx, [Admin, Developer]);
      if actor.Failure? {
        return Failure(actor.error);
      }
      if experiments == null {
        return Failure(NotConfigured);
      }
      r := experiments.CreateExperiment(WithActorId(ctx, actor.value), input);
    }

    /** A mutation of a request, handed to its resolver. */
    method Mutate(ctx: Context, m: Mutation) returns (r: Result<Answer, Error>)
      requires Ready()
      modifies db
      ensures Ready() && Gated(m, ctx, r)
    {
      match m
      case CreateFlag(input) => r := CreateFlag(ctx, input);
      case UpdateFlag(input) => r := UpdateFlag(ctx, input);
      case DeleteFlag(key, environment) => r := DeleteFlag(ctx, key, environment);
      case CreateUser(input) => r := CreateUser(ctx, input);
      case UpdateUser(input) => r := UpdateUser(ctx, input);
      case DeleteUser(id) => r := DeleteUser(ctx, id);
      case CreateExperiment(input) => r := CreateExperiment(ctx, input);
    }

    /** The environment defaults to dev; nothing is written. */
    method EvaluateFlag(
      lib: Library, ctx: Context, key: string, evaluation: EvaluationContext, environment: Option<string>)
      returns (r: Result<bool, Error>)
      requires Ready()
      modifies db
      ensures Ready() && db.committed == old(db.committed)
      ensures RequireRole(ctx, EVERYONE).Failure? ==> r == Failure(RequireRole(ctx, EVERYONE).error)
      ensures RequireRole(ctx, EVERYONE).Success? && db.Calm(old(db.calls), db.calls) ==>
        var target := if environment.Some? && environment.value != "" then environment.value else DEV;
        r == Evaluate(lib, old(db.committed), key, target, evaluation)
      ensures RequireRole(ctx, EVERYONE).Success? && !db.Calm(old(db.calls), db.calls) ==>
        r.Failure? && Root(r.error) == ConnectionFailure
    {
      hide Evaluate;
      var caller := RequireRole(ctx, EVERYONE);
      if caller.Failure? {
        return Failure(caller.error);
      }
      var target := DEV;
      if environment.Some? && environment.value != "" {
        target := environment.value;
      }
      r := flags.EvaluateFlagInEnvironment(lib, key, target, evaluation);
    }

    method GetAssignment(hash: Hash, ctx: Context, user: IdText, key: string, environment: string)
      returns (r: Result<Variant, Error>)
      requires Ready()
      modifies db
      ensures Ready()
      ensures RequireRole(ctx, EVERYONE).Failure? || experiments == null ==>
        r == Failure(Missing(ctx, EVERYONE)) && unchanged(db)
      ensures RequireRole(ctx, EVERYONE).Success? && experiments != null && db.Calm(old(db.calls), db.calls) ==>
        match Serve(old(db.committed), hash, user, key, environment)
        case Success((t, v)) => db.committed == t && r == Success(v)
        case Failure(e) => db.committed == old(db.committed) && r == Failure(e)
      ensures RequireRole(ctx, EVERYONE).Success? && experiments != null && !db.Calm(old(db.calls), db.calls) ==>
        db.committed == old(db.committed) && r.Failure? && Root(r.error) == ConnectionFailure
    {
      hide Serve;
      var caller := RequireRole(ctx, EVERYONE);
      if caller.Failure? {
        return Failure(caller.error);
      }
      if experiments == null {
        return Failure(NotConfigured);
      }
      r := experiments.GetAssignment(hash, user, key, environment);
    }
  }

  /** Who may carry out a mutation: admins, developers unless it is about users, and never without a subject. */
  lemma AdmittedIff(m: Mutation, claims: Option<Claims>)
    ensures Admit(m, claims).Success? <==>
      && claims.Some? && claims.value.sub != NotUuid("")
      && (claims.value.role == Admin
          || (claims.value.role == Developer && !m.CreateUser? && !m.UpdateUser? && !m.DeleteUser?))
    ensures Admit(m, claims).Success? ==> Admit(m, claims).value == claims.value.sub
    ensures claims == None ==> Admit(m, claims) == Failure(Unauthorized)
  {
    assert claims.Some? ==> (claims.value.role in AllowedRoles(m) <==>
      (claims.value.role == Admin || (claims.value.role == Developer && EntityOf(m) != Entity.User)));
  }

  /** Evaluations and assignments are for every role there is. */
  lemma EveryRole(role: Role)
    ensures role in EVERYONE <==> !role.UnknownRole?
  {
  }
}
