/**
 The exact limit of stickiness: the bucket is computed from the text in which the caller
 writes the user id, so two first calls in different spellings can overwrite each other.
 */
module SpellingRace {
  import opened Wrappers
  import opened Schema
  import opened Weights
  import opened Interleaving
  import opened Reachable
  import opened Stickiness

  function Pair(s: State, x: Call, y: Call): State {
    s.(calls := map[0 := x, 1 := y])
  }

  /** Two calls about one experiment that no assignment row exists for yet. */
  ghost predicate Unserved(s: State, u: Uuid, e: Uuid, a: IdText, b: IdText) {
    && s.calls == map[]
    && u in s.committed.users
    && e in s.committed.experiments
    && (u, e) !in s.committed.assignments
    && ParseUuid(a) == ParseUuid(b) == Some(u)
    && VariantsOf(s.committed.variants, e) != []
    && var key := ExperimentKeyOf(s.committed.experiments[e]);
       FindExperiment(s.committed.experiments, key.0, key.1) == Some(e)
  }

  /** Both calls are made, and both read that there is no assignment, before either stores one. */
  lemma BothReadNothing(s: State, u: Uuid, e: Uuid, a: IdText, b: IdText) returns (steps: seq<Step>)
    requires Unserved(s, u, e, a, b)
    ensures Legal(s, steps) && Asks(steps, {a, b}, u)
    ensures var key := ExperimentKeyOf(s.committed.experiments[e]); var list := VariantsOf(s.committed.variants, e);
      Final(s, steps) == Pair(s,
        Call(a, key.0, key.1, Unassigned(e, Assigned(s.hash, a, e, list))),
        Call(b, key.0, key.1, Unassigned(e, Assigned(s.hash, b, e, list))))
  {
    hide Assigned, VariantsOf, FindExperiment, Legal, Final;
    var key, list := ExperimentKeyOf(s.committed.experiments[e]), VariantsOf(s.committed.variants, e);
    var ca, cb := Call(a, key.0, key.1, Asked), Call(b, key.0, key.1, Asked);
    steps := BothAsk(s, ca, cb);
    steps := BothLoadExperiment(s, e, steps, ca, cb);
    steps := BothLoadVariants(s, e, steps, ca.(stage := HasExperiment(e)), cb.(stage := HasExperiment(e)));
    steps := BothLoadAssignment(s, u, e, steps, ca.(stage := HasVariants(e, list)), cb.(stage := HasVariants(e, list)));
  }

  lemma BothAsk(s: State, x: Call, y: Call) returns (steps: seq<Step>)
    requires s.calls == map[] && x.stage == y.stage == Asked && x.user != EMPTY_ID && y.user != EMPTY_ID
    ensures Legal(s, steps) && Final(s, steps) == Pair(s, x, y)
    ensures steps == [Ask(0, x.user, x.key, x.environment), Ask(1, y.user, y.key, y.environment)]
  {
    var only := s.(calls := map[0 := x]);
    steps := Advance(s, [], Ask(0, x.user, x.key, x.environment), only);
    assert map[0 := x][1 := y] == map[0 := x, 1 := y];
    steps := Advance(s, steps, Ask(1, y.user, y.key, y.environment), Pair(s, x, y));
  }

  lemma BothLoadExperiment(s: State, e: Uuid, before: seq<Step>, x: Call, y: Call) returns (steps: seq<Step>)
    requires Legal(s, before) && Final(s, before) == Pair(s, x, y)
    requires x.stage == y.stage == Asked && (x.key, x.environment) == (y.key, y.environment)
    requires FindExperiment(s.committed.experiments, x.key, x.environment) == Some(e)
    ensures Legal(s, steps) && Final(s, steps) == Pair(s, x.(stage := HasExperiment(e)), y.(stage := HasExperiment(e)))
    ensures steps == before + [LoadExperiment(0), LoadExperiment(1)]
  {
    hide FindExperiment, Legal, Final;
    var x', y' := x.(stage := HasExperiment(e)), y.(stage := HasExperiment(e));
    assert map[0 := x, 1 := y][0 := x'] == map[0 := x', 1 := y];
    assert map[0 := x', 1 := y][1 := y'] == map[0 := x', 1 := y'];
    steps := Advance(s, before, LoadExperiment(0), Pair(s, x', y));
    steps := Advance(s, steps, LoadExperiment(1), Pair(s, x', y'));
    assert steps == before + [LoadExperiment(0), LoadExperiment(1)];
  }

  lemma BothLoadVariants(s: State, e: Uuid, before: seq<Step>, x: Call, y: Call) returns (steps: seq<Step>)
    requires Legal(s, before) && Final(s, before) == Pair(s, x, y)
    requires x.stage == y.stage == HasExperiment(e) && VariantsOf(s.committed.variants, e) != []
    ensures var stage := HasVariants(e, VariantsOf(s.committed.variants, e));
      Legal(s, steps) && Final(s, steps) == Pair(s, x.(stage := stage), y.(stage := stage))
    ensures steps == before + [LoadVariants(0), LoadVariants(1)]
  {
    hide VariantsOf, Legal, Final;
    var stage := HasVariants(e, VariantsOf(s.committed.variants, e));
    var x', y' := x.(stage := stage), y.(stage := stage);
    assert map[0 := x, 1 := y][0 := x'] == map[0 := x', 1 := y];
    assert map[0 := x', 1 := y][1 := y'] == map[0 := x', 1 := y'];
    steps := Advance(s, before, LoadVariants(0), Pair(s, x', y));
    steps := Advance(s, steps, LoadVariants(1), Pair(s, x', y'));
    assert steps == before + [LoadVariants(0), LoadVariants(1)];
  }

  lemma BothLoadAssignment(s: State, u: Uuid, e: Uuid, before: seq<Step>, x: Call, y: Call) returns (steps: seq<Step>)
    requires Legal(s, before) && Final(s, before) == Pair(s, x, y)
    requires x.stage == y.stage && x.stage.HasVariants? && x.stage.experiment == e && x.stage.variants != []
    requires ParseUuid(x.user) == ParseUuid(y.user) == Some(u) && (u, e) !in s.committed.assignments
    ensures Legal(s, steps)
    ensures Final(s, steps) == Pair(s,
      x.(stage := Unassigned(e, Assigned(s.hash, x.user, e, x.stage.variants))),
      y.(stage := Unassigned(e, Assigned(s.hash, y.user, e, x.stage.variants))))
    ensures steps == before + [LoadAssignment(0), LoadAssignment(1)]
  {
    hide Assigned, Legal, Final;
    var x' := x.(stage := Unassigned(e, Assigned(s.hash, x.user, e, x.stage.variants)));
    var y' := y.(stage := Unassigned(e, Assigned(s.hash, y.user, e, x.stage.variants)));
    assert map[0 := x, 1 := y][0 := x'] == map[0 := x', 1 := y];
    assert map[0 := x', 1 := y][1 := y'] == map[0 := x', 1 := y'];
    steps := Advance(s, before, LoadAssignment(0), Pair(s, x', y));
    steps := Advance(s, steps, LoadAssignment(1), Pair(s, x', y'));
    assert steps == before + [LoadAssignment(0), LoadAssignment(1)];
  }

  lemma AssignedBelongs(s: State, user: IdText, e: Uuid)
    requires VariantsOf(s.committed.variants, e) != []
    ensures var v := Assigned(s.hash, user, e, VariantsOf(s.committed.variants, e));
      v.id in s.committed.variants && s.committed.variants[v.id].experiment == e
  {
  }

  /** A store that meets no conflict answers the call. */
  lemma StoreAnswers(s: State, n: nat, u: Uuid)
    requires n in s.calls && s.calls[n].stage.Unassigned? && ParseUuid(s.calls[n].user) == Some(u)
    requires var call := s.calls[n].stage;
      && u in s.committed.users && call.experiment in s.committed.experiments
      && call.variant.id in s.committed.variants
      && s.committed.variants[call.variant.id].experiment == call.experiment
    ensures var call := s.calls[n].stage; var s' := AfterStore(s, n);
      && s'.calls == s.calls[n := s.calls[n].(stage := Answered(call.experiment, call.variant))]
      && s'.committed == s.committed.(assignments := s'.committed.assignments)
  {
  }

  /** Two spellings with different buckets: a run in which the same user gets two variants. */
  lemma SpellingsCanDiffer(s: State, u: Uuid, e: Uuid, a: IdText, b: IdText) returns (steps: seq<Step>)
    requires Unserved(s, u, e, a, b)
    requires var list := VariantsOf(s.committed.variants, e);
      Assigned(s.hash, a, e, list) != Assigned(s.hash, b, e, list)
    ensures Legal(s, steps) && Asks(steps, {a, b}, u)
    ensures !OneAnswer(Final(s, steps), u, e)
  {
    hide Assigned, VariantsOf, FindExperiment, Legal, Final, AfterStore;
    var before := BothReadNothing(s, u, e, a, b);
    AssignedBelongs(s, a, e);
    AssignedBelongs(s, b, e);
    var f := Final(s, before);
    StoreAnswers(f, 0, u);
    var f' := AfterStore(f, 0);
    steps := Advance(s, before, Store(0), f');
    StoreAnswers(f', 1, u);
    var f'' := AfterStore(f', 1);
    steps := Advance(s, steps, Store(1), f'');
    assert AnswersFor(f''.calls[0], u, e) && AnswersFor(f''.calls[1], u, e);
  }

  lemma ListKept(s: State, steps: seq<Step>, e: Uuid)
    requires Initial(s) && Legal(s, steps) && e in s.committed.experiments
    ensures VariantsOf(Final(s, steps).committed.variants, e) == VariantsOf(s.committed.variants, e)
  {
    assert steps[..0] == [];
    ListStaysThrough(s, steps, 0, e, VariantsOf(Final(s, steps).committed.variants, e));
  }

  /**
   Callers that name a user in two texts get one variant in every run, whoever else calls in
   whatever texts, if and only if both texts select the same variant.
   */
  lemma StickyIff(s: State, u: Uuid, e: Uuid, a: IdText, b: IdText)
    requires Initial(s) && Unserved(s, u, e, a, b)
    ensures (forall steps :: Legal(s, steps) && Asks(steps, {a, b}, u) ==> OneAnswer(Final(s, steps), u, e))
      <==> Assigned(s.hash, a, e, VariantsOf(s.committed.variants, e))
             == Assigned(s.hash, b, e, VariantsOf(s.committed.variants, e))
  {
    hide Legal, Final, Initial, VariantsOf, Assigned, FindExperiment, OneAnswer, Asks;
    var list := VariantsOf(s.committed.variants, e);
    if Assigned(s.hash, a, e, list) == Assigned(s.hash, b, e, list) {
      forall steps | Legal(s, steps) && Asks(steps, {a, b}, u)
        ensures OneAnswer(Final(s, steps), u, e)
      {
        ListKept(s, steps, e);
        CallersGetOneVariant(s, steps, {a, b}, u, e);
      }
    } else {
      var steps := SpellingsCanDiffer(s, u, e, a, b);
    }
  }
}
