/**
 What the interleaved system guarantees, carried over to serial runs of the services: each
 call, whatever faults hit it, keeps what the machine's runs keep.
 */
module SerialRuns {
  import opened Wrappers
  import opened Schema
  import opened Errors
  import opened Auth
  import opened Weights
  import opened Protocol
  import opened Transactions
  import opened Evaluation
  import opened Interleaving
  import opened Reachable
  import opened StrategyMatch
  import opened Shares
  import opened Solo
  import opened ExperimentServices
  import opened Resolvers

  function Fresh(hash: Hash, t: Tables): State {
    State(hash, t, map[], map[], IdsOf(t), [], t.assignments)
  }

  lemma {:induction false} OneTxNeverOverlaps(s: State, k: nat, m: Mutation, steps: seq<Step>)
    requires s.txs == map[] && Legal(s, steps) && OnlyOf(steps, k, m)
    ensures NeverOverlaps(s, steps)
    decreases |steps|
  {
    OnlyTxOf(s, k, m, steps);
    if steps != [] {
      var init := steps[..|steps| - 1];
      assert forall i :: 0 <= i < |init| ==> init[i] == steps[i];
      OneTxNeverOverlaps(s, k, m, init);
    }
  }

  /** A serial mutation is a run of the machine from the same tables. */
  lemma SerialIsARun(hash: Hash, t: Tables, m: Mutation, claims: Option<Claims>, ids: nat -> Uuid, n: nat)
    returns (steps: seq<Step>)
    requires Consistent(t) && Admit(m, claims).Success? && NewIds(ids, n, IdsOf(t), NO_WRITES)
    ensures var s := Fresh(hash, t);
      && Initial(s) && Legal(s, steps) && OnlyOf(steps, 0, m)
      && match Serial(t, m, Admit(m, claims).value, ids, n)
         case Committed(t', _) => Final(s, steps).committed == t'
         case _ => Final(s, steps).committed == t
  {
    steps := SoloRun(Fresh(hash, t), 0, m, claims, ids, n);
  }

  /** The tables a serial mutation leaves, committed or not. */
  function Left(t: Tables, m: Mutation, actor: IdText, ids: nat -> Uuid, n: nat): Tables {
    match Serial(t, m, actor, ids, n)
    case Committed(t', _) => t'
    case _ => t
  }

  lemma OneBodySmall(steps: seq<Step>, m: Mutation)
    requires OnlyOf(steps, 0, m) && WellSized(m)
    ensures SmallBodies(steps)
  {
    forall i | 0 <= i < |steps| && steps[i].Open?
      ensures WellSized(steps[i].mutation)
    {
      assert OfTx(steps[i], 0, m);
    }
  }

  /** A serial mutation keeps rules matched to their flag's strategy and weights summing to 100. */
  lemma SerialKeeps(t: Tables, m: Mutation, claims: Option<Claims>, ids: nat -> Uuid, n: nat)
    requires Consistent(t) && Admit(m, claims).Success? && NewIds(ids, n, IdsOf(t), NO_WRITES)
    ensures Matched(t) ==> Matched(Left(t, m, Admit(m, claims).value, ids, n))
    ensures WellSized(m) && Weighted(t) ==> Weighted(Left(t, m, Admit(m, claims).value, ids, n))
  {
    hide Consistent, WellSized, Admit, NewIds, Serial, Matched, Weighted;
    hide Legal, Final, OnlyOf, Initial, NeverOverlaps, SharesOk, MatchOk, SmallBodies;
    var hash: Hash := (_, _) => 0;
    var s := Fresh(hash, t);
    var steps := SerialIsARun(hash, t, m, claims, ids, n);
    if Matched(t) {
      OneTxNeverOverlaps(s, 0, m, steps);
      RulesMatchStrategy(s, steps);
    }
    if WellSized(m) && Weighted(t) {
      OneBodySmall(steps, m);
      VisibleWeightsSumTo100(s, steps);
    }
  }

  /** A request as the resolvers get it. */
  datatype Request =
    | Change(ctx: Context, mutation: Mutation)
    | PickVariant(ctx: Context, user: IdText, key: string, environment: string)
    | EvaluateOne(ctx: Context, flagKey: string, evaluation: EvaluationContext, target: Option<string>)

  datatype Response =
    | Changed(answer: Result<Answer, Error>)
    | Picked(variant: Result<Variant, Error>)
    | Evaluated(verdict: Result<bool, Error>)

  /** The reply of a mutation that was carried out. */
  predicate CarriedOut(m: Mutation, reply: Result<Answer, Error>) {
    reply.Success? && !(m.DeleteUser? && reply.value == Deleted(false))
  }

  /** The rows due in the log for one request: one if it is a mutation that was carried out. */
  function RowsDue(request: Request, response: Response, t: Tables): seq<AuditRow> {
    match (request, response)
    case (Change(ctx, m), Changed(reply)) =>
      if CarriedOut(m, reply) && ctx.claims.Some? && ParseUuid(ctx.claims.value.sub).Some? then
        [RowDue(t, m, reply.value, ParseUuid(ctx.claims.value.sub).value)]
      else []
    case _ => []
  }

  /** What one request may do to the tables, and what it leaves in the log. */
  ghost predicate Handled(request: Request, response: Response, t: Tables, t': Tables) {
    && t'.audit == t.audit + RowsDue(request, response, t)
    && match request
       case Change(ctx, m) =>
         && response.Changed?
         && (if CarriedOut(m, response.answer)
             then |RowsDue(request, response, t)| == 1 && Admit(m, ctx.claims).Success?
             else t' == t)
       case PickVariant(_, _, _, _) => response.Picked? && t' == t.(assignments := t'.assignments)
       case EvaluateOne(_, _, _, _) => response.Evaluated? && t' == t
  }

  /** One mutation, whatever faults hit it. */
  twostate lemma CallKeeps(r: Resolver, new ctx: Context, new m: Mutation, new reply: Result<Answer, Error>)
    requires old(r.Ready())
    requires r.Gated(m, ctx, reply)
    ensures old(Matched(r.db.committed)) ==> Matched(r.db.committed)
    ensures WellSized(m) && old(Weighted(r.db.committed)) ==> Weighted(r.db.committed)
    ensures Handled(Change(ctx, m), Changed(reply), old(r.db.committed), r.db.committed)
  {
    hide Matched, Weighted, Serial, Admit, Consistent, IdsOf, WellSized, IdDue;
    var claims, t := ctx.claims, old(r.db.committed);
    assert t.audit + [] == t.audit;
    if Admit(m, claims).Success? {
      var actor, ids, n := Admit(m, claims).value, r.db.uuids, old(r.db.minted);
      SerialKeeps(t, m, claims, ids, n);
      SerialLogsOnce(t, m, actor, ids, n);
      AdmittedIff(m, claims);
    }
  }

  lemma AssignmentsKeep(t: Tables, t': Tables)
    requires t' == t.(assignments := t'.assignments)
    ensures Matched(t') == Matched(t) && Weighted(t') == Weighted(t)
  {
  }

  ghost predicate SmallBody(request: Request) {
    request.Change? ==> WellSized(request.mutation)
  }

  /** One request, whatever faults hit it. */
  method ServeOne(r: Resolver, lib: Library, hash: Hash, request: Request) returns (response: Response)
    requires r.Ready()
    modifies r.db
    ensures r.Ready()
    ensures old(Matched(r.db.committed)) ==> Matched(r.db.committed)
    ensures SmallBody(request) && old(Weighted(r.db.committed)) ==> Weighted(r.db.committed)
    ensures Handled(request, response, old(r.db.committed), r.db.committed)
  {
    hide Admit, Matched, Weighted, Serve, Consistent, IdsOf, WellSized;
    ghost var t := r.db.committed;
    assert t.audit + [] == t.audit;
    match request
    case Change(ctx, m) =>
      var reply := r.Mutate(ctx, m);
      CallKeeps(r, ctx, m, reply);
      response := Changed(reply);
    case PickVariant(ctx, user, key, environment) =>
      var variant := r.GetAssignment(hash, ctx, user, key, environment);
      ServeTouchesOnlyAssignments(t, hash, user, key, environment);
      AssignmentsKeep(t, r.db.committed);
      response := Picked(variant);
    case EvaluateOne(ctx, key, evaluation, target) =>
      var verdict := r.EvaluateFlag(lib, ctx, key, evaluation, target);
      response := Evaluated(verdict);
  }

  // ---------------------------------------------------------------- any sequence of requests

  /** trail holds the tables before each request and after the last. */
  ghost predicate AllHandled(requests: seq<Request>, responses: seq<Response>, trail: seq<Tables>) {
    && |responses| == |requests| && |trail| == |requests| + 1
    && forall i :: 0 <= i < |requests| ==> Handled(requests[i], responses[i], trail[i], trail[i + 1])
  }

  /** The rows due in the log, request by request. */
  function AllRowsDue(requests: seq<Request>, responses: seq<Response>, trail: seq<Tables>): seq<AuditRow>
    requires |responses| == |requests| < |trail|
  {
    if requests == [] then []
    else
      var n := |requests| - 1;
      AllRowsDue(requests[..n], responses[..n], trail[..n + 1]) + RowsDue(requests[n], responses[n], trail[n])
  }

  lemma HandledBefore(requests: seq<Request>, responses: seq<Response>, trail: seq<Tables>)
    requires AllHandled(requests, responses, trail) && requests != []
    ensures var n := |requests| - 1; AllHandled(requests[..n], responses[..n], trail[..n + 1])
  {
    hide Handled;
  }

  /** The log grows by exactly the rows due, in the order of the requests. */
  lemma {:induction false} LogIsDue(requests: seq<Request>, responses: seq<Response>, trail: seq<Tables>)
    requires AllHandled(requests, responses, trail)
    ensures trail[|requests|].audit == trail[0].audit + AllRowsDue(requests, responses, trail)
    decreases |requests|
  {
    if requests != [] {
      var n := |requests| - 1;
      HandledBefore(requests, responses, trail);
      assert trail[..n + 1][0] == trail[0] && trail[..n + 1][n] == trail[n];
      LogIsDue(requests[..n], responses[..n], trail[..n + 1]);
      assert Handled(requests[n], responses[n], trail[n], trail[n + 1]);
      hide Handled, RowsDue;
    }
  }

  predicate FromViewer(request: Request) {
    request.ctx.claims.Some? && request.ctx.claims.value.role == Viewer
  }

  ghost predicate AllFromViewers(requests: seq<Request>) {
    forall i :: 0 <= i < |requests| ==> FromViewer(requests[i])
  }

  lemma ViewerOnlyPicks(request: Request, response: Response, t: Tables, t': Tables)
    requires Handled(request, response, t, t') && FromViewer(request)
    ensures t' == t.(assignments := t'.assignments)
  {
    if request.Change? {
      AdmittedIff(request.mutation, request.ctx.claims);
    }
    hide RowsDue, Admit;
  }

  /** Requests of viewers change no table but the assignments. */
  lemma {:induction false} ViewersOnlyPick(requests: seq<Request>, responses: seq<Response>, trail: seq<Tables>)
    requires AllHandled(requests, responses, trail)
    requires AllFromViewers(requests)
    ensures trail[|requests|] == trail[0].(assignments := trail[|requests|].assignments)
    decreases |requests|
  {
    if requests != [] {
      var n := |requests| - 1;
      HandledBefore(requests, responses, trail);
      assert trail[..n + 1][0] == trail[0] && trail[..n + 1][n] == trail[n];
      assert Handled(requests[n], responses[n], trail[n], trail[n + 1]);
      hide Handled;
      ViewersOnlyPick(requests[..n], responses[..n], trail[..n + 1]);
      ViewerOnlyPicks(requests[n], responses[n], trail[n], trail[n + 1]);
    }
  }

  lemma HandledNext(
    requests: seq<Request>, responses: seq<Response>, trail: seq<Tables>, request: Request, response: Response,
    t: Tables)
    requires AllHandled(requests, responses, trail) && Handled(request, response, trail[|requests|], t)
    ensures AllHandled(requests + [request], responses + [response], trail + [t])
  {
    hide Handled;
  }

  lemma ServedAll(requests: seq<Request>, responses: seq<Response>, trail: seq<Tables>)
    requires AllHandled(requests, responses, trail)
    ensures trail[|requests|].audit == trail[0].audit + AllRowsDue(requests, responses, trail)
    ensures AllFromViewers(requests) ==>
      trail[|requests|] == trail[0].(assignments := trail[|requests|].assignments)
  {
    hide Handled, AllRowsDue, FromViewer;
    LogIsDue(requests, responses, trail);
    if AllFromViewers(requests) {
      ViewersOnlyPick(requests, responses, trail);
    }
  }

  /**
   Requests served one after another, with any faults: rules stay matched to strategies,
   weights sum to 100, and every request did to the tables and the log what it may.
   */
  method ServeAll(r: Resolver, lib: Library, hash: Hash, requests: seq<Request>)
    returns (responses: seq<Response>, ghost trail: seq<Tables>)
    requires r.Ready()
    modifies r.db
    ensures r.Ready()
    ensures old(Matched(r.db.committed)) ==> Matched(r.db.committed)
    ensures old(Weighted(r.db.committed)) && (forall i :: 0 <= i < |requests| ==> SmallBody(requests[i])) ==>
      Weighted(r.db.committed)
    ensures AllHandled(requests, responses, trail)
    ensures trail[0] == old(r.db.committed) && trail[|requests|] == r.db.committed
    ensures r.db.committed.audit == old(r.db.committed.audit) + AllRowsDue(requests, responses, trail)
    ensures AllFromViewers(requests) ==>
      r.db.committed == old(r.db.committed).(assignments := r.db.committed.assignments)
  {
    responses, trail := [], [r.db.committed];
    ghost var start := r.db.committed;
    ghost var small := forall i :: 0 <= i < |requests| ==> SmallBody(requests[i]);
    hide Matched, Weighted, Handled, SmallBody, Consistent, IdsOf, AllRowsDue, AllFromViewers, RowsDue, UniqueBy,
      WellSized;
    for i := 0 to |requests|
      invariant r.Ready() && AllHandled(requests[..i], responses, trail)
      invariant trail[0] == start && trail[i] == r.db.committed
      invariant Matched(start) ==> Matched(r.db.committed)
      invariant Weighted(start) && small ==> Weighted(r.db.committed)
    {
      var response := ServeOne(r, lib, hash, requests[i]);
      HandledNext(requests[..i], responses, trail, requests[i], response, r.db.committed);
      assert requests[..i] + [requests[i]] == requests[..i + 1];
      responses, trail := responses + [response], trail + [r.db.committed];
    }
    assert requests[..|requests|] == requests;
    ServedAll(requests, responses, trail);
  }
}
