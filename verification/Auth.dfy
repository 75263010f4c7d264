/** Claims, the role gate and the actor of internal/auth/auth.go. */
module Auth {
  import opened Wrappers
  import opened Schema
  import opened Errors

  datatype Claims = Claims(sub: IdText, role: Role)

  /** The request context: what the middleware and the resolvers put into it. */
  datatype Context = Context(claims: Option<Claims>, actor: Option<IdText>)

  function RequireRole(ctx: Context, allowed: seq<Role>): (r: Result<IdText, Error>)
    ensures r.Success? <==> ctx.claims.Some? && ctx.claims.value.role in allowed
    ensures r.Success? ==> r.value == ctx.claims.value.sub
    ensures r.Failure? && ctx.claims == None ==> r.error == Unauthorized
    ensures r.Failure? && ctx.claims.Some? ==> r.error == Forbidden(ctx.claims.value.role, allowed)
  {
    match ctx.claims
    case None => Failure(Unauthorized)
    case Some(claims) =>
      if claims.role in allowed then Success(claims.sub) else Failure(Forbidden(claims.role, allowed))
  }

  function WithActorId(ctx: Context, actor: IdText): Context {
    ctx.(actor := Some(actor))
  }

  /** The actor, if one is stored and not empty. */
  function ActorIdFromContext(ctx: Context): (actor: Option<IdText>)
    ensures actor.Some? ==> actor == ctx.actor && actor.value != EMPTY_ID
    ensures actor.None? ==> ctx.actor == None || ctx.actor == Some(EMPTY_ID)
  {
    if ctx.actor == Some(EMPTY_ID) then None else ctx.actor
  }
}
