/**
 What createExperiment and getAssignment do, case by case, in terms of what the client sends
 and what is stored.
 */
module ExperimentOutcomes {
  import opened Schema
  import opened Statements
  import opened Errors
  import opened Weights
  import opened Protocol
  import opened NeverLost
  import opened Outcomes

  // ---------------------------------------------------------------- the weights of an experiment

  predicate FirstNegativeAt(variants: seq<VariantInput>, k: nat) {
    k < |variants| && variants[k].weight < 0 && forall i :: 0 <= i < k ==> 0 <= variants[i].weight
  }

  ghost predicate HasNegative(variants: seq<VariantInput>) {
    exists k: nat :: FirstNegativeAt(variants, k)
  }

  /** The machine int that the loop holds for a mathematical sum. */
  predicate MachineIntOf(sum: int, machine: int) {
    -HALF_WORD <= machine < HALF_WORD && (sum - machine) % WORD == 0
  }

  /** The error reports the weights up to the first negative one, and the sum of those before it. */
  ghost predicate ReportsNegative(e: Error, variants: seq<VariantInput>) {
    && e.InvalidWeights? && e.reason == NegativeWeight
    && exists k: nat ::
         && FirstNegativeAt(variants, k)
         && e.weights == WeightsOf(variants)[..k + 1] && MachineIntOf(Sum(WeightsOf(variants)[..k]), e.sum)
  }

  ghost predicate ReportsSum(e: Error, variants: seq<VariantInput>) {
    && e.InvalidWeights? && e.reason == WrongSum
    && e.weights == WeightsOf(variants) && MachineIntOf(Sum(WeightsOf(variants)), e.sum)
  }

  ghost predicate WeightsRefused(variants: seq<VariantInput>, e: Error) {
    if variants == [] then e == InvalidWeights(0, [], NoVariants)
    else if HasNegative(variants) then ReportsNegative(e, variants)
    else ReportsSum(e, variants)
  }

  /** No weight is negative, and in the machine's arithmetic they sum to 100. */
  ghost predicate WeightsPass(variants: seq<VariantInput>) {
    variants != [] && !HasNegative(variants) && MachineIntOf(Sum(WeightsOf(variants)), 100)
  }

  lemma MachineIntIsOne(sum: int, a: int, b: int)
    requires MachineIntOf(sum, a) && MachineIntOf(sum, b)
    ensures a == b
  {
    assert (sum - a) / WORD * WORD == sum - a && (sum - b) / WORD * WORD == sum - b;
  }

  lemma WeightsDecided(variants: seq<VariantInput>)
    ensures match Verdict(WeightsOf(variants))
      case Success(_) => WeightsPass(variants)
      case Failure(e) => !WeightsPass(variants) && WeightsRefused(variants, e)
  {
    var ws := WeightsOf(variants);
    var k := FirstNegative(ws);
    MachineSumWraps(ws);
    MachineSumWraps(ws[..k]);
    hide Sum, MachineSum, Wrap;
    if k < |ws| {
      assert FirstNegativeAt(variants, k);
    } else {
      assert forall i :: 0 <= i < |variants| ==> 0 <= ws[i];
      if MachineIntOf(Sum(ws), 100) {
        MachineIntIsOne(Sum(ws), MachineSum(ws), 100);
      }
    }
  }

  // ---------------------------------------------------------------- createExperiment

  predicate IsExperiment(t: Tables, e: Uuid, key: string, environment: string) {
    e in t.experiments && t.experiments[e].key == key && t.experiments[e].environment == environment
  }

  ghost predicate KeyStored(t: Tables, key: string, environment: string) {
    exists e: Uuid :: IsExperiment(t, e, key, environment)
  }

  lemma KeyFound(t: Tables, key: string, environment: string)
    ensures KeyStored(t, key, environment) <==> FindExperiment(t.experiments, key, environment).Some?
    ensures KeyStored(t, key, environment) <==> ExperimentKeyTaken(t.experiments, (key, environment))
  {
    if e :| IsExperiment(t, e, key, environment) {
      assert ExperimentKeyOf(t.experiments[e]) == (key, environment);
    }
    if e :| e in t.experiments && ExperimentKeyOf(t.experiments[e]) == (key, environment) {
      assert IsExperiment(t, e, key, environment);
    }
  }

  /** A weight does not fit its column. */
  predicate TooLarge(variants: seq<VariantInput>) {
    exists i :: 0 <= i < |variants| && variants[i].weight > MAX_INTEGER
  }

  predicate Stands(row: VariantRow, e: Uuid, input: VariantInput) {
    row.experiment == e && row.name == input.name && row.weight == input.weight
  }

  /** The variants given are added under the ids from n on, in their order, and nothing else is. */
  ghost predicate VariantsAdded(
    before: map<Uuid, VariantRow>, after: map<Uuid, VariantRow>, e: Uuid, variants: seq<VariantInput>,
    ids: nat -> Uuid, n: nat)
  {
    && (forall k: nat :: n <= k < n + |variants| ==> ids(k) in after && Stands(after[ids(k)], e, variants[k - n]))
    && (forall v :: v in before ==> v in after && after[v] == before[v])
    && (forall v :: v in after && v !in before ==> exists k: nat :: n <= k < n + |variants| && v == ids(k))
  }

  /** Inserting the variants one by one fails at the first that is too large, or adds them all. */
  lemma {:induction false} VariantsRun(
    t: Tables, e: Uuid, variants: seq<VariantInput>, ids: nat -> Uuid, n: nat)
    requires e in t.experiments && NewIn(t, ids, n)
    requires forall i :: 0 <= i < |variants| ==> 0 <= variants[i].weight
    ensures match RunTodo(t, VariantInserts(e, variants), ids, n)
      case Success(t') =>
        && !TooLarge(variants) && t' == t.(variants := t'.variants)
        && VariantsAdded(t.variants, t'.variants, e, variants, ids, n)
      case Failure(error) => TooLarge(variants) && error == Stored(OutOfRange)
    decreases |variants|
  {
    hide Exec, IdsOf, VariantsAdded, VariantInserts, TooLarge, NewIn;
    if variants == [] {
      NothingAdded(t.variants, e, ids, n);
    } else {
      var v, rest, todo := variants[0], variants[1..], VariantInserts(e, variants);
      InsertsHead(e, variants);
      TooLargeHead(variants);
      InsertEffect(t, e, v, ids(n));
      RunMintHead(t, todo, ids, n);
      if v.weight <= MAX_INTEGER {
        var t1 := t.(variants := t.variants[ids(n) := VariantRow(e, v.name, v.weight)]);
        StillNew(t, t1, ids, n);
        VariantsRun(t1, e, rest, ids, n + 1);
        var r := RunTodo(t1, todo[1..], ids, n + 1);
        hide RunTodo;
        if r.Success? {
          AddedFirst(t.variants, r.value.variants, e, variants, ids, n);
        }
      }
    }
  }

  lemma NothingAdded(variants: map<Uuid, VariantRow>, e: Uuid, ids: nat -> Uuid, n: nat)
    ensures VariantInserts(e, []) == [] && VariantsAdded(variants, variants, e, [], ids, n) && !TooLarge([])
  {
  }

  lemma InsertsHead(e: Uuid, variants: seq<VariantInput>)
    requires variants != []
    ensures var todo := VariantInserts(e, variants);
      && todo != [] && todo[0] == InsertVariant(VariantRow(e, variants[0].name, variants[0].weight))
      && todo[1..] == VariantInserts(e, variants[1..])
  {
  }

  lemma TooLargeHead(variants: seq<VariantInput>)
    requires variants != []
    ensures TooLarge(variants) <==> variants[0].weight > MAX_INTEGER || TooLarge(variants[1..])
  {
    assert forall i :: 0 <= i < |variants| - 1 ==> variants[1..][i] == variants[i + 1];
    if i :| 0 <= i < |variants| && variants[i].weight > MAX_INTEGER && i > 0 {
      assert variants[1..][i - 1].weight > MAX_INTEGER;
    }
  }

  lemma InsertEffect(t: Tables, e: Uuid, v: VariantInput, id: Uuid)
    requires e in t.experiments && 0 <= v.weight
    ensures var row := VariantRow(e, v.name, v.weight);
      Exec(t, InsertVariant(row), id) ==
        if v.weight > MAX_INTEGER then Rejected(OutOfRange) else Applied(t.(variants := t.variants[id := row]))
  {
  }

  lemma StillNew(t: Tables, t1: Tables, ids: nat -> Uuid, n: nat)
    requires NewIn(t, ids, n) && t1 == t.(variants := t1.variants) && t1.variants.Keys <= t.variants.Keys + {ids(n)}
    ensures NewIn(t1, ids, n + 1) && ids(n) !in t.variants
  {
    forall i | n + 1 <= i
      ensures ids(i) !in IdsOf(t1)
    {
      assert ids(i) != ids(n) && ids(i) !in IdsOf(t);
    }
  }

  lemma AddedFirst(
    before: map<Uuid, VariantRow>, after: map<Uuid, VariantRow>, e: Uuid, variants: seq<VariantInput>,
    ids: nat -> Uuid, n: nat)
    requires variants != [] && ids(n) !in before
    requires VariantsAdded(before[ids(n) := VariantRow(e, variants[0].name, variants[0].weight)], after, e,
      variants[1..], ids, n + 1)
    ensures VariantsAdded(before, after, e, variants, ids, n)
  {
    var one := before[ids(n) := VariantRow(e, variants[0].name, variants[0].weight)];
    assert ids(n) in one && after[ids(n)] == one[ids(n)];
    forall k: nat | n <= k < n + |variants|
      ensures ids(k) in after && Stands(after[ids(k)], e, variants[k - n])
    {
      if k > n {
        assert variants[k - n] == variants[1..][k - (n + 1)];
      }
    }
    forall v | v in before
      ensures v in after && after[v] == before[v]
    {
      assert v in one;
    }
    forall v | v in after && v !in before
      ensures exists k: nat :: n <= k < n + |variants| && v == ids(k)
    {
      if v != ids(n) {
        assert v !in one;
      }
    }
  }

  ghost predicate CreateRefused(t: Tables, input: CreateExperimentInput, actor: IdText, e: Error) {
    if !WeightsPass(input.variants) then WeightsRefused(input.variants, e)
    else if KeyStored(t, input.key, input.environment) then e == DuplicateExperiment(input.key, input.environment)
    else if TooLarge(input.variants) then e == Stored(OutOfRange)
    else actor.NotUuid? && e == Stored(InvalidText)
  }

  /** The experiment is there with exactly the given variants, and nothing else has changed. */
  ghost predicate ExperimentCreated(
    t: Tables, t': Tables, input: CreateExperimentInput, actor: IdText, ids: nat -> Uuid, n: nat, answer: Answer)
  {
    var e := ids(n);
    && t'.experiments == t.experiments[e := ExperimentRow(input.key, input.environment)]
    && VariantsAdded(t.variants, t'.variants, e, input.variants, ids, n + 1)
    && t'.users == t.users && t'.flags == t.flags && t'.rules == t.rules && t'.assignments == t.assignments
    && answer == ExperimentAnswer(e, ExperimentRow(input.key, input.environment))
    && Logged(t, t', Entity.Experiment, Canonical(e), Action.Create, actor)
  }

  lemma CreateWorks(t: Tables, input: CreateExperimentInput, ids: nat -> Uuid, n: nat)
    requires NewIn(t, ids, n) && WeightsPass(input.variants) && !KeyStored(t, input.key, input.environment)
    ensures match Work(t, Mutation.CreateExperiment(input), ids, n)
      case Failure(error) => TooLarge(input.variants) && error == Stored(OutOfRange)
      case Success((t', e)) =>
        && e == ids(n) && !TooLarge(input.variants)
        && t' == t.(experiments := t.experiments[e := ExperimentRow(input.key, input.environment)],
                    variants := t'.variants)
        && VariantsAdded(t.variants, t'.variants, e, input.variants, ids, n + 1)
  {
    hide Exec, RunTodo, FindExperiment, KeyStored, WeightsPass, Verdict, VariantInserts, VariantsAdded, TooLarge, NewIn,
      HasNegative;
    var e, row := ids(n), ExperimentRow(input.key, input.environment);
    var t1 := t.(experiments := t.experiments[e := row]);
    WeightsDecided(input.variants);
    KeyFound(t, input.key, input.environment);
    PassNoneNegative(input.variants);
    ExperimentInserted(t, row, ids, n);
    VariantsRun(t1, e, input.variants, ids, n + 1);
  }

  lemma ExperimentInserted(t: Tables, row: ExperimentRow, ids: nat -> Uuid, n: nat)
    requires NewIn(t, ids, n) && !ExperimentKeyTaken(t.experiments, (row.key, row.environment))
    ensures var t1 := t.(experiments := t.experiments[ids(n) := row]);
      Exec(t, InsertExperiment(row), ids(n)) == Applied(t1) && NewIn(t1, ids, n + 1)
  {
    assert forall i :: n + 1 <= i ==> ids(i) != ids(n) && ids(i) !in IdsOf(t);
  }

  lemma PassNoneNegative(variants: seq<VariantInput>)
    requires WeightsPass(variants)
    ensures forall i :: 0 <= i < |variants| ==> 0 <= variants[i].weight
  {
    hide HasNegative, Sum;
    NoneNegative(variants);
  }

  lemma NoneNegative(variants: seq<VariantInput>)
    requires !HasNegative(variants)
    ensures forall i :: 0 <= i < |variants| ==> 0 <= variants[i].weight
  {
    var k := FirstNegative(WeightsOf(variants));
    assert k < |variants| ==> FirstNegativeAt(variants, k);
  }

  /** createExperiment: when it is refused, with which error, and what it leaves when it is not. */
  lemma CreateExperimentOutcome(
    t: Tables, input: CreateExperimentInput, actor: IdText, ids: nat -> Uuid, n: nat)
    requires NewIn(t, ids, n)
    ensures match Serial(t, Mutation.CreateExperiment(input), actor, ids, n)
      case Refused(e) => CreateRefused(t, input, actor, e)
      case Committed(t', answer) =>
        && WeightsPass(input.variants) && !KeyStored(t, input.key, input.environment) && !TooLarge(input.variants)
        && ExperimentCreated(t, t', input, actor, ids, n, answer)
      case NothingDeleted => false
  {
    hide NewIn, WeightsPass, WeightsRefused, KeyStored, TooLarge, VariantsAdded, FindExperiment, Verdict, RunPlan;
    WeightsDecided(input.variants);
    KeyFound(t, input.key, input.environment);
    if WeightsPass(input.variants) && !KeyStored(t, input.key, input.environment) {
      CreateWorks(t, input, ids, n);
      hide Work;
    }
  }

  // ---------------------------------------------------------------- getAssignment

  ghost predicate AssignmentRefused(t: Tables, user: IdText, key: string, environment: string, error: Error) {
    if user == NotUuid("") then error == InvalidUserId
    else if !KeyStored(t, key, environment) then error == ExperimentNotFound(key, environment)
    else exists e: Uuid ::
      && IsExperiment(t, e, key, environment)
      && if VariantsOf(t.variants, e) == [] then error == NoVariantsFound(key, environment)
         else if user.NotUuid? then error == Stored(InvalidText)
         else (user.uuid, e) !in t.assignments && user.uuid !in t.users && error == Stored(ForeignKeyViolation)
  }

  /** The stored variant, or the one of the user's share, which is stored. */
  ghost predicate AssignmentServed(t: Tables, t': Tables, hash: Hash, user: IdText, e: Uuid, v: Variant) {
    && !user.NotUuid? && v in VariantsOf(t.variants, e)
    && if (user.uuid, e) in t.assignments then t' == t && v.id == t.assignments[(user.uuid, e)]
       else
         && user.uuid in t.users
         && t' == t.(assignments := t.assignments[(user.uuid, e) := v.id])
         && (Shared(VariantsOf(t.variants, e)) ==> ChosenByShare(hash, user, e, VariantsOf(t.variants, e), v))
  }

  ghost predicate Answers(
    t: Tables, t': Tables, hash: Hash, user: IdText, key: string, environment: string, v: Variant)
  {
    exists e: Uuid :: IsExperiment(t, e, key, environment) && AssignmentServed(t, t', hash, user, e, v)
  }

  /** getAssignment: when it fails, with which error, and which variant it answers and stores when it does not. */
  lemma GetAssignmentOutcome(t: Tables, hash: Hash, user: IdText, key: string, environment: string)
    requires Consistent(t)
    ensures match Serve(t, hash, user, key, environment)
      case Failure(error) => AssignmentRefused(t, user, key, environment, error)
      case Success((t', v)) =>
        Answers(t, t', hash, user, key, environment, v)
  {
    hide Consistent, Shared, ChosenByShare, VariantsOf, FindExperiment, KeyStored, Assigned, VariantIndex;
    KeyFound(t, key, environment);
    var found := FindExperiment(t.experiments, key, environment);
    if found.Some? {
      var e, list := found.value, VariantsOf(t.variants, found.value);
      assert IsExperiment(t, e, key, environment);
      if list != [] && !user.NotUuid? {
        if (user.uuid, e) in t.assignments {
          StoredVariantIsListed(t, user.uuid, e);
        } else {
          if Shared(list) {
            AssignedByShare(hash, user, e, list);
          }
          ListedBelongs(t, e, Assigned(hash, user, e, list));
        }
      }
    }
  }

  lemma ListedBelongs(t: Tables, e: Uuid, v: Variant)
    requires v in VariantsOf(t.variants, e)
    ensures v.id in t.variants && t.variants[v.id].experiment == e
  {
  }
}
