/**
 Reading the audit log: the query builder of internal/audit/postgres.go and the resolver of
 transport/graphql/audit.resolvers.go in front of it.
 */
module AuditQueries {
  import opened Wrappers
  import opened Schema
  import opened Errors
  import opened Auth

  const DEFAULT_LIST_LIMIT := 50
  const MAX_LIST_LIMIT := 200

  datatype ListFilter = ListFilter(entity: Option<string>, action: Option<string>, actorId: Option<IdText>)

  /** A row of audit_logs; createdAt is the start of its transaction. */
  datatype LogRow = LogRow(
    id: Uuid, entity: string, entityId: IdText, action: string, actor: Uuid, createdAt: int)

  datatype Column = EntityColumn | ActionColumn | ActorColumn

  /** "column = $placeholder", counted from 1. */
  datatype Condition = Condition(column: Column, placeholder: nat)

  datatype Arg = TextArg(text: string) | IdArg(id: IdText) | IntArg(value: int)

  /** SELECT ... WHERE conds ORDER BY created_at DESC LIMIT $limitAt OFFSET $offsetAt. */
  datatype Query = Query(conds: seq<Condition>, limitAt: nat, offsetAt: nat)

  function Clamp(limit: int): int {
    var positive := if limit <= 0 then DEFAULT_LIST_LIMIT else limit;
    if positive > MAX_LIST_LIMIT then MAX_LIST_LIMIT else positive
  }

  /** What the filter asks for. */
  predicate Satisfies(filter: ListFilter, row: LogRow) {
    && (filter.entity.Some? ==> row.entity == filter.entity.value)
    && (filter.action.Some? ==> row.action == filter.action.value)
    && (filter.actorId.Some? ==> ParseUuid(filter.actorId.value) == Some(row.actor))
  }

  /** Placeholders are numbered through, each argument being used once. */
  predicate Numbered(q: Query, args: seq<Arg>) {
    && |args| == |q.conds| + 2
    && (forall i :: 0 <= i < |q.conds| ==> q.conds[i].placeholder == i + 1)
    && q.limitAt == |q.conds| + 1
    && q.offsetAt == |q.conds| + 2
  }

  /** A condition with its argument, on one row. */
  predicate Holds(column: Column, arg: Arg, row: LogRow) {
    match column
    case EntityColumn => arg == TextArg(row.entity)
    case ActionColumn => arg == TextArg(row.action)
    case ActorColumn => arg.IdArg? && ParseUuid(arg.id) == Some(row.actor)
  }

  /** The WHERE clause with its positional arguments. */
  predicate Where(q: Query, args: seq<Arg>, row: LogRow)
    requires Numbered(q, args)
  {
    forall i :: 0 <= i < |q.conds| ==> Holds(q.conds[i].column, args[q.conds[i].placeholder - 1], row)
  }

  /** The WHERE clause selects what the filter asks for, and LIMIT and OFFSET bind their values. */
  ghost predicate Builds(q: Query, args: seq<Arg>, filter: ListFilter, limit: int, offset: int) {
    && Numbered(q, args)
    && (forall row :: Where(q, args, row) <==> Satisfies(filter, row))
    && args[q.limitAt - 1] == IntArg(limit)
    && args[q.offsetAt - 1] == IntArg(offset)
  }

  function One(present: bool): nat {
    if present then 1 else 0
  }

  /** One condition and argument for each field that is set, in the order of the columns. */
  ghost predicate Listed(filter: ListFilter, conds: seq<Condition>, args: seq<Arg>) {
    var e, a, c := One(filter.entity.Some?), One(filter.action.Some?), One(filter.actorId.Some?);
    && |conds| == e + a + c <= |args|
    && (e == 1 ==> conds[0] == Condition(EntityColumn, 1) && args[0] == TextArg(filter.entity.value))
    && (a == 1 ==> conds[e] == Condition(ActionColumn, e + 1) && args[e] == TextArg(filter.action.value))
    && (c == 1 ==> conds[e + a] == Condition(ActorColumn, e + a + 1) && args[e + a] == IdArg(filter.actorId.value))
  }

  lemma ListedMeans(filter: ListFilter, q: Query, args: seq<Arg>, row: LogRow)
    requires Numbered(q, args) && Listed(filter, q.conds, args)
    ensures Where(q, args, row) <==> Satisfies(filter, row)
  {
    var e, a := One(filter.entity.Some?), One(filter.action.Some?);
    if Where(q, args, row) {
      assert filter.entity.Some? ==> Holds(q.conds[0].column, args[0], row);
      assert filter.action.Some? ==> Holds(q.conds[e].column, args[e], row);
      assert filter.actorId.Some? ==> Holds(q.conds[e + a].column, args[e + a], row);
    }
  }

  method BuildList(filter: ListFilter, limit: int, offset: int) returns (r: Result<(Query, seq<Arg>), Error>)
    ensures offset < 0 ==> r == Failure(Operation(NegativeOffset))
    ensures offset >= 0 ==> r.Success? && Builds(r.value.0, r.value.1, filter, Clamp(limit), offset)
  {
    var limit := limit;
    if limit <= 0 {
      limit := DEFAULT_LIST_LIMIT;
    }
    if limit > MAX_LIST_LIMIT {
      limit := MAX_LIST_LIMIT;
    }
    if offset < 0 {
      return Failure(Operation(NegativeOffset));
    }
    var conds: seq<Condition>, args: seq<Arg>, i := [], [], 1;
    if filter.entity.Some? {
      conds := conds + [Condition(EntityColumn, i)];
      args := args + [TextArg(filter.entity.value)];
      i := i + 1;
    }
    if filter.action.Some? {
      conds := conds + [Condition(ActionColumn, i)];
      args := args + [TextArg(filter.action.value)];
      i := i + 1;
    }
    if filter.actorId.Some? {
      conds := conds + [Condition(ActorColumn, i)];
      args := args + [IdArg(filter.actorId.value)];
      i := i + 1;
    }
    args := args + [IntArg(limit), IntArg(offset)];
    var q := Query(conds, i, i + 1);
    assert Listed(filter, conds, args);
    hide Where, Listed, Satisfies;
    forall row
      ensures Where(q, args, row) <==> Satisfies(filter, row)
    {
      ListedMeans(filter, q, args, row);
    }
    return Success((q, args));
  }

  /** Two clamps are one: 50 for a limit that is not positive, otherwise the limit, at most 200. */
  lemma ClampTwice(limit: int)
    ensures Clamp(if limit > MAX_LIST_LIMIT then MAX_LIST_LIMIT else limit) == Clamp(limit)
    ensures 1 <= Clamp(limit) <= 200
    ensures limit <= 0 ==> Clamp(limit) == 50
    ensures 0 < limit <= 200 ==> Clamp(limit) == limit
    ensures 200 < limit ==> Clamp(limit) == 200
  {
  }

  /** The resolver: the role gate, its own limit and offset handling, and the store's. */
  method AuditLogs(ctx: Context, filter: Option<ListFilter>, limit: Option<int>, offset: Option<int>)
    returns (r: Result<(Query, seq<Arg>), Error>)
    ensures RequireRole(ctx, [Admin]).Failure? ==> r == Failure(RequireRole(ctx, [Admin]).error)
    ensures RequireRole(ctx, [Admin]).Success? && offset.Some? && offset.value < 0 ==> r == Failure(NegativeOffset)
    ensures RequireRole(ctx, [Admin]).Success? && (offset == None || offset.value >= 0) ==>
      && r.Success?
      && Builds(r.value.0, r.value.1,
           if filter.Some? then filter.value else ListFilter(None, None, None),
           if limit.Some? then Clamp(limit.value) else DEFAULT_LIST_LIMIT,
           if offset.Some? then offset.value else 0)
  {
    var caller := RequireRole(ctx, [Admin]);
    if caller.Failure? {
      return Failure(caller.error);
    }
    var resolvedLimit := DEFAULT_LIST_LIMIT;
    if limit.Some? {
      resolvedLimit := limit.value;
      ClampTwice(resolvedLimit);
    }
    if resolvedLimit > MAX_LIST_LIMIT {
      resolvedLimit := MAX_LIST_LIMIT;
    }
    var resolvedOffset := 0;
    if offset.Some? {
      resolvedOffset := offset.value;
    }
    if resolvedOffset < 0 {
      return Failure(NegativeOffset);
    }
    var f := ListFilter(None, None, None);
    if filter.Some? {
      f := filter.value;
    }
    r := BuildList(f, resolvedLimit, resolvedOffset);
  }
}
