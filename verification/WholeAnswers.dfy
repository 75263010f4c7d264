/**
 When a mutation tears no evaluation of its flag, whatever other mutations run besides: the
 exact condition under which every answer is that of the state at one of its reads.
 */
module WholeAnswers {
  import opened Wrappers
  import opened Schema
  import opened FlagRules
  import opened Protocol
  import opened Interleaving
  import opened Isolation
  import opened Reachable
  import opened AuditTrail
  import opened Evaluation
  import opened Readers
  import opened RolloutHistory
  import opened TxSteps
  import opened TornReads
  import opened PlannedWrites
  import opened AmongOthers

  // ---------------------------------------------------------------- answers across the commit

  lemma RulesListed(rules: map<Uuid, RuleRow>, f: Uuid, rows: seq<RuleRow>)
    requires HasExactly(rules, f, rows) && forall i :: 0 <= i < |rows| ==> rows[i].flag == f
    ensures RulesOf(rules, f) == [] <==> rows == []
    ensures forall r :: r in RulesOf(rules, f) ==> r in rows
  {
    var sorted := Sorted(RuleIds(rules, f));
    forall i | 0 <= i < |sorted|
      ensures RulesOf(rules, f)[i] in rows
    {
      assert sorted[i] in RuleIds(rules, f);
    }
    if rows != [] {
      assert Stored(rules, rows[0]);
      var r :| r in rules && rules[r] == rows[0];
      assert r in RuleIds(rules, f);
    }
  }

  /** Whatever the order of its rules, a flag with a strategy answers what some rule says, or no. */
  lemma AnswerIsSomeVerdict(
    lib: Library, ctx: EvaluationContext, current: Strategy, rules: seq<RuleRow>, kind: RuleType)
    requires rules != [] && StrategyOf(kind) == current && kind != UntypedRule
    requires forall r :: r in rules ==> r.kind == kind
    ensures var v := AfterRules(lib, current, ctx, rules);
      v == Success(false) || exists r :: r in rules && RuleVerdict(lib, ctx, r) == v
  {
    if kind == PercentageRule {
      assert rules[0] in rules;
      FirstPercentageRuleDecides(lib, ctx, rules);
    } else {
      AttributeRulesAreOr(lib, ctx, rules);
      var v := EvaluateAttributeRules(lib, ctx, rules);
      if i: nat :| DecidesAt(lib, ctx, rules, i, v) {
        assert rules[i] in rules;
      }
    }
  }

  ghost predicate Whole(lib: Library, t: Tables, t': Tables, key: string, environment: string, ctx: EvaluationContext) {
    || TwoReads(lib, t, t', key, environment, ctx) == Evaluate(lib, t, key, environment, ctx)
    || TwoReads(lib, t, t', key, environment, ctx) == Evaluate(lib, t', key, environment, ctx)
  }

  lemma DeleteIsWhole(
    lib: Library, t: Tables, t': Tables, f: Uuid, key: string, environment: string, ctx: EvaluationContext)
    requires FindFlag(t.flags, key, environment) == Some(f) && t.flags[f].enabled && ctx.userId != ""
    requires RuleIds(t'.rules, f) == {} && Evaluate(lib, t, key, environment, ctx) == Success(true)
    ensures Whole(lib, t, t', key, environment, ctx)
  {
    hide FindFlag, EvaluateRulesByStrategy;
  }

  lemma UpdateIsWholeAcross(
    lib: Library, t: Tables, t': Tables, f: Uuid, change: UpdateFlagInput, ctx: EvaluationContext)
    requires Consistent(t') && FindFlag(t.flags, change.key, EnvironmentOf(change)) == Some(f)
    requires t.flags[f].enabled && ctx.userId != "" && Settled(t, t', Mutation.UpdateFlag(change), f)
    requires UpdateIsWhole(lib, ctx, f, t.flags[f].strategy,
      Evaluate(lib, t, change.key, EnvironmentOf(change), ctx), change)
    ensures Whole(lib, t, t', change.key, EnvironmentOf(change), ctx)
  {
    var key, environment, current := change.key, EnvironmentOf(change), t.flags[f].strategy;
    var row := EditedFlag(t.flags[f], change).value;
    assert ResolveStrategyForUpdate(current, change.rules) == Success(row.strategy);
    assert row.enabled == change.enabled && FlagKeyOf(row) == FlagKeyOf(t.flags[f]);
    if change.rules.Some? {
      FoundByKey(t', f, key, environment);
      assert forall i :: 0 <= i < |RuleRows(f, change.rules.value)| ==> RuleRows(f, change.rules.value)[i].flag == f;
      hide Consistent, FindFlag, RuleRows, RulesOf, RuleVerdict, EditedFlag, ResolveStrategyForUpdate, HasExactly,
        EvaluatePercentageRules, EvaluateAttributeRules;
      var rows, rules := RuleRows(f, change.rules.value), RulesOf(t'.rules, f);
      RulesListed(t'.rules, f, rows);
      if rows != [] && current != NoStrategy {
        NewRulesAreOfKind(f, current, change.rules.value);
        if !change.enabled {
          AnswerIsSomeVerdict(lib, ctx, current, rules, SameType(change.rules.value).value);
        }
      }
    } else {
      SameRulesSameList(t, t', f);
      hide Consistent, FindFlag, RulesOf, AfterRules, EditedFlag, ResolveStrategyForUpdate, SameRules;
    }
  }

  // ---------------------------------------------------------------- reads around the commit

  lemma {:induction false} OrderGrows(s: State, steps: seq<Step>, i: nat, j: nat)
    requires Legal(s, steps) && i <= j <= |steps|
    ensures StateAt(s, steps, i).order <= StateAt(s, steps, j).order
    decreases j - i
  {
    hide Legal, Final, StateAt, Enabled, After;
    if i < j {
      OrderGrows(s, steps, i, j - 1);
      StateAtNext(s, steps, j - 1);
      OrderKept(StateAt(s, steps, j - 1), steps[j - 1]);
    }
  }

  lemma CommittedStays(s: State, steps: seq<Step>, k: nat, i: nat, j: nat)
    requires Legal(s, steps) && i <= j <= |steps| && k in StateAt(s, steps, i).order
    ensures k in StateAt(s, steps, j).order
  {
    hide Legal, Final, StateAt;
    OrderGrows(s, steps, i, j);
    var a, b := StateAt(s, steps, i).order, StateAt(s, steps, j).order;
    var n :| 0 <= n < |a| && a[n] == k;
    assert b[n] == k;
  }

  /** The mutation commits between two times only if it had not at the first and has at the second. */
  lemma CommitsBetween(
    s: State, steps: seq<Step>, m: Mutation, key: string, environment: string, i: nat, n: nat, j: nat)
    requires Initial(s) && Legal(s, steps) && RunAlongside(steps, m, key, environment) && i <= n < j <= |steps|
    requires AimedAt(m, key, environment) && steps[n] == Commit(0)
    ensures 0 !in StateAt(s, steps, i).order && 0 in StateAt(s, steps, j).order
  {
    hide Legal, Final, StateAt, After, Initial, RunAlongside, Settled, OnTheWay, AimedAt, FindFlag, AllAlongside;
    StateAtNext(s, steps, n);
    SteadyAt(s, steps, m, key, environment, n);
    OrderKept(StateAt(s, steps, n), steps[n]);
    assert 0 in StateAt(s, steps, n).order + [0];
    CommittedStays(s, steps, 0, n + 1, j);
    if 0 in StateAt(s, steps, i).order {
      CommittedStays(s, steps, 0, i, n);
    }
  }

  lemma QuietRun(s: State, steps: seq<Step>, m: Mutation, i: nat, j: nat, key: string, environment: string)
    requires Initial(s) && Legal(s, steps) && RunAlongside(steps, m, key, environment) && i <= j <= |steps|
    requires !AimedAt(m, key, environment) || 0 in StateAt(s, steps, i).order || 0 !in StateAt(s, steps, j).order
    ensures Quiet(s, steps, i, j, key, environment)
  {
    CastAlways(s, steps, m, key, environment);
    hide Initial, Legal, Final, StateAt, RunAlongside, AimedAt;
    var txs := Final(s, steps).txs;
    forall n | i <= n < j && n < |steps| && steps[n].Commit? && steps[n].k in txs
      ensures !AimedAt(txs[steps[n].k].mutation, key, environment)
    {
      if steps[n].k == 0 && AimedAt(m, key, environment) {
        CommitsBetween(s, steps, m, key, environment, i, n, j);
      }
    }
  }

  /** What the condition speaks of is the same in states that agree on the flag. */
  lemma TearsNothingLater(
    lib: Library, c0: Tables, t: Tables, m: Mutation, key: string, environment: string, ctx: EvaluationContext)
    requires TearsNothing(lib, c0, m, key, environment, ctx) && SameFlag(c0, t, key, environment)
    ensures TearsNothing(lib, t, m, key, environment, ctx)
  {
    hide FindFlag, RulesOf, AfterRules, UpdateIsWhole, AimedAt;
  }

  /** Across the commit of a mutation that tears nothing. */
  lemma CommitIsWhole(
    lib: Library, c0: Tables, t: Tables, t': Tables, m: Mutation, key: string, environment: string,
    ctx: EvaluationContext)
    requires Consistent(t') && SameFlag(c0, t, key, environment)
    requires AimedAt(m, key, environment) && TearsNothing(lib, c0, m, key, environment, ctx)
    requires var found := FindFlag(c0.flags, key, environment); found.Some? ==> Settled(t, t', m, found.value)
    ensures Whole(lib, t, t', key, environment, ctx)
  {
    TearsNothingLater(lib, c0, t, m, key, environment, ctx);
    var found := FindFlag(t.flags, key, environment);
    hide Consistent, FindFlag, RulesOf, AfterRules, Settled, TearsNothing;
    if ctx.userId != "" && found.Some? && t.flags[found.value].enabled {
      AcrossCommit(lib, t, t', m, found.value, key, environment, ctx);
    }
  }

  lemma AcrossCommit(
    lib: Library, t: Tables, t': Tables, m: Mutation, f: Uuid, key: string, environment: string, ctx: EvaluationContext)
    requires Consistent(t') && AimedAt(m, key, environment) && FindFlag(t.flags, key, environment) == Some(f)
    requires ctx.userId != "" && t.flags[f].enabled && Settled(t, t', m, f)
    requires TearsNothing(lib, t, m, key, environment, ctx)
    ensures Whole(lib, t, t', key, environment, ctx)
  {
    hide Consistent, FindFlag, RulesOf, AfterRules, UpdateIsWhole, Whole, Evaluate, EditedFlag, HasExactly, SameRules;
    match m
    case DeleteFlag(_, _) => DeleteIsWhole(lib, t, t', f, key, environment, ctx);
    case UpdateFlag(change) => UpdateIsWholeAcross(lib, t, t', f, change, ctx);
    case _ => assert false;
  }

  /** What a state before and a state after the commit say of the flag. */
  lemma AroundCommit(
    s: State, steps: seq<Step>, m: Mutation, i: nat, j: nat, key: string, environment: string)
    requires Initial(s) && Legal(s, steps) && RunAlongside(steps, m, key, environment) && i <= j <= |steps|
    requires AimedAt(m, key, environment)
    requires 0 !in StateAt(s, steps, i).order && 0 in StateAt(s, steps, j).order
    ensures SameFlag(s.committed, TablesAt(s, steps, i), key, environment)
    ensures var found := FindFlag(s.committed.flags, key, environment);
      found.Some? ==> Settled(TablesAt(s, steps, i), TablesAt(s, steps, j), m, found.value)
  {
    hide Initial, Legal, Final, StateAt, RunAlongside, AimedAt, Settled, FindFlag, SameImage, AllAlongside, RulesOf,
      NobodyCreates, Follows;
    SteadyAt(s, steps, m, key, environment, i);
    SteadyAt(s, steps, m, key, environment, j);
    var c0, t, t' := s.committed, TablesAt(s, steps, i), TablesAt(s, steps, j);
    var found := FindFlag(c0.flags, key, environment);
    if found.Some? {
      var f := found.value;
      SameImageSameFlag(c0, t, f, key, environment);
      SameImageSelf(t', t', f);
      SettledSameFlag(c0, t', t, t', m, f);
    }
  }

  /** Reads at any two times of a run of a mutation that tears nothing, whatever runs besides. */
  lemma ReadsAreWhole(
    lib: Library, s: State, steps: seq<Step>, m: Mutation, i: nat, j: nat,
    key: string, environment: string, ctx: EvaluationContext)
    requires Initial(s) && Legal(s, steps) && RunAlongside(steps, m, key, environment) && i <= j <= |steps|
    requires TearsNothing(lib, s.committed, m, key, environment, ctx)
    ensures Whole(lib, TablesAt(s, steps, i), TablesAt(s, steps, j), key, environment, ctx)
  {
    hide Initial, Legal, Final, StateAt, RunAlongside, TearsNothing, AimedAt, TwoReads, Evaluate, Settled, SameFlag,
      Whole, Good, FindFlag;
    var t, t' := TablesAt(s, steps, i), TablesAt(s, steps, j);
    if !AimedAt(m, key, environment) || 0 in StateAt(s, steps, i).order || 0 !in StateAt(s, steps, j).order {
      QuietRun(s, steps, m, i, j, key, environment);
      QuietReads(lib, s, steps, i, i, j, key, environment, ctx);
      SameIsWhole(lib, t, t', key, environment, ctx);
    } else {
      AroundCommit(s, steps, m, i, j, key, environment);
      GoodAt(s, steps, j);
      ConsistentWhenGood(StateAt(s, steps, j));
      CommitIsWhole(lib, s.committed, t, t', m, key, environment, ctx);
    }
  }

  lemma SameIsWhole(lib: Library, t: Tables, t': Tables, key: string, environment: string, ctx: EvaluationContext)
    requires TwoReads(lib, t, t', key, environment, ctx) == Evaluate(lib, t, key, environment, ctx)
    ensures Whole(lib, t, t', key, environment, ctx)
  {
  }

  lemma ConsistentWhenGood(s: State)
    requires Good(s)
    ensures Consistent(s.committed)
  {
  }

  // ---------------------------------------------------------------- the exact condition

  /** The answer of a reader, if it asked about this flag, is that of the tables at one of its reads. */
  ghost predicate AnswerIsWhole(
    lib: Library, s: State, steps: seq<Step>, r: Reader, key: string, environment: string, ctx: EvaluationContext)
    requires Legal(s, steps)
  {
    r.progress.Told? && r == Reader(key, environment, ctx, r.progress) ==>
      var i, j, v := r.progress.from, r.progress.to, r.progress.verdict;
      && i <= j <= |steps|
      && (|| v == Evaluate(lib, TablesAt(s, steps, i), key, environment, ctx)
          || v == Evaluate(lib, TablesAt(s, steps, j), key, environment, ctx))
  }

  /** In every run with the mutation, every such evaluation answers as the state at one of its reads. */
  ghost predicate AlwaysWhole(
    lib: Library, s: State, m: Mutation, key: string, environment: string, ctx: EvaluationContext)
  {
    forall moves: seq<Move>, n ::
      Lawful(Starts(lib, s), moves) && Legal(s, StepsOf(moves)) && RunAlongside(StepsOf(moves), m, key, environment)
        && n in End(Starts(lib, s), moves).readers ==>
        AnswerIsWhole(lib, s, StepsOf(moves), End(Starts(lib, s), moves).readers[n], key, environment, ctx)
  }

  lemma ReaderIsWhole(
    lib: Library, s: State, moves: seq<Move>, n: nat, m: Mutation, key: string, environment: string,
    ctx: EvaluationContext)
    requires Initial(s) && TearsNothing(lib, s.committed, m, key, environment, ctx)
    requires Lawful(Starts(lib, s), moves) && Legal(s, StepsOf(moves))
    requires RunAlongside(StepsOf(moves), m, key, environment) && n in End(Starts(lib, s), moves).readers
    ensures AnswerIsWhole(lib, s, StepsOf(moves), End(Starts(lib, s), moves).readers[n], key, environment, ctx)
  {
    hide Initial, Legal, Final, RunAlongside, Evaluate, TwoReads, TearsNothing, Lawful, End, StateAt;
    AnswersAreTwoReads(lib, s, moves);
    var r, steps := End(Starts(lib, s), moves).readers[n], StepsOf(moves);
    assert ReadRight(lib, s, steps, r);
    if r.progress.Told? && r == Reader(key, environment, ctx, r.progress) {
      ReadsAreWhole(lib, s, steps, m, r.progress.from, r.progress.to, key, environment, ctx);
    }
  }

  /** A run and an evaluation around it that is answered neither way. */
  lemma TornRun(lib: Library, s: State, m: Mutation, key: string, environment: string, ctx: EvaluationContext)
    returns (steps: seq<Step>)
    requires Initial(s) && !TearsNothing(lib, s.committed, m, key, environment, ctx)
    ensures Legal(s, steps) && RunOfOne(steps, m)
    ensures Torn(lib, s.committed, Final(s, steps).committed, key, environment, ctx)
  {
    hide Initial, Legal, Final, RunOfOne, Evaluate, TwoReads, UpdateIsWhole, FindFlag;
    var f := FindFlag(s.committed.flags, key, environment).value;
    match m
    case DeleteFlag(_, _) => steps := DeleteAnswersTrue(lib, s, f, key, environment, ctx);
    case UpdateFlag(change) => steps := UpdateTears(lib, s, f, change, ctx);
  }

  lemma OneIsAlongside(steps: seq<Step>, m: Mutation, key: string, environment: string)
    requires RunOfOne(steps, m)
    ensures RunAlongside(steps, m, key, environment)
  {
    forall i | 0 <= i < |steps|
      ensures Alongside(steps[i], m, key, environment)
    {
      assert OpensOnlyThis(steps[i], m);
    }
  }

  lemma TornReader(lib: Library, s: State, m: Mutation, key: string, environment: string, ctx: EvaluationContext)
    requires Initial(s) && !TearsNothing(lib, s.committed, m, key, environment, ctx)
    ensures !AlwaysWhole(lib, s, m, key, environment, ctx)
  {
    var steps := TornRun(lib, s, m, key, environment, ctx);
    OneIsAlongside(steps, m, key, environment);
    TornMeansFound(lib, s.committed, m, key, environment, ctx);
    hide Initial, Legal, Final, RunOfOne, Evaluate, TwoReads, TearsNothing, FindFlag, Lawful, End;
    var f := FindFlag(s.committed.flags, key, environment).value;
    var moves := ReadsAround(lib, s, steps, f, key, environment, ctx);
    StateAtStart(s, steps);
    StateAtEnd(s, steps);
    hide StateAt;
    var r := End(Starts(lib, s), moves).readers[0];
    assert !AnswerIsWhole(lib, s, StepsOf(moves), r, key, environment, ctx);
  }

  lemma TornMeansFound(lib: Library, t: Tables, m: Mutation, key: string, environment: string, ctx: EvaluationContext)
    requires !TearsNothing(lib, t, m, key, environment, ctx)
    ensures ctx.userId != "" && FindFlag(t.flags, key, environment).Some?
    ensures t.flags[FindFlag(t.flags, key, environment).value].enabled
  {
  }

  /**
   In every run in which one mutation is aimed at a flag, and any others elsewhere, every
   evaluation of the flag answers as the state at one of its reads if and only if the mutation
   tears nothing.
   */
  lemma AlwaysWholeIff(lib: Library, s: State, m: Mutation, key: string, environment: string, ctx: EvaluationContext)
    requires Initial(s)
    ensures AlwaysWhole(lib, s, m, key, environment, ctx) <==> TearsNothing(lib, s.committed, m, key, environment, ctx)
  {
    hide Initial, Legal, Final, RunAlongside, Evaluate, TwoReads, TearsNothing, Lawful, End, StateAt;
    if TearsNothing(lib, s.committed, m, key, environment, ctx) {
      forall moves: seq<Move>, n | Lawful(Starts(lib, s), moves) && Legal(s, StepsOf(moves))
          && RunAlongside(StepsOf(moves), m, key, environment) && n in End(Starts(lib, s), moves).readers
        ensures AnswerIsWhole(lib, s, StepsOf(moves), End(Starts(lib, s), moves).readers[n], key, environment, ctx)
      {
        ReaderIsWhole(lib, s, moves, n, m, key, environment, ctx);
      }
    } else {
      TornReader(lib, s, m, key, environment, ctx);
    }
  }
}
