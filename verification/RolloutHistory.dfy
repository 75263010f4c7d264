/** What the audit trail says about evaluations, whose two reads lie at two times of a run. */
module RolloutHistory {
  import opened Wrappers
  import opened Schema
  import opened Protocol
  import opened Transactions
  import opened Interleaving
  import opened Isolation
  import opened Reachable
  import opened AuditTrail
  import opened Evaluation
  import opened Readers
  import opened TxSteps

  /** The entry that says a flag was updated. */
  predicate SaysUpdated(row: AuditRow, f: Uuid) {
    Names(row, FeatureFlag, f) && row.action == Update
  }

  /** Every enabled flag has been updated on the record. */
  ghost predicate EnabledOnRecord(c0: Tables, c: Tables) {
    forall f :: f in c.flags && c.flags[f].enabled ==>
      exists row :: row in Appended(c0, c) && SaysUpdated(row, f)
  }

  lemma RecordSurvives(c0: Tables, c: Tables, c': Tables, f: Uuid)
    requires c0.audit <= c.audit <= c'.audit
    requires exists row :: row in Appended(c0, c) && SaysUpdated(row, f)
    ensures exists row :: row in Appended(c0, c') && SaysUpdated(row, f)
  {
    var row :| row in Appended(c0, c) && SaysUpdated(row, f);
    var i :| 0 <= i < |Appended(c0, c)| && Appended(c0, c)[i] == row;
    assert Appended(c0, c')[i] == row;
  }

  /** A commit that leaves a flag enabled either left the flag alone or was its update. */
  lemma CommitEnables(c: Tables, issued: set<Uuid>, tx: Tx, x: Uuid, f: Uuid)
    requires TxOk(c, issued, tx) && tx.phase == Logged(x)
    requires f in View(c, tx.delta).flags && View(c, tx.delta).flags[f].enabled
    ensures (f in c.flags && c.flags[f] == View(c, tx.delta).flags[f])
      || (tx.mutation.UpdateFlag? && f == x)
  {
    hide Standing, AuditFor;
  }

  lemma EnabledAfterCommit(c0: Tables, s: State, k: nat, x: Uuid)
    requires k in s.txs && s.txs[k].phase == Logged(x)
    requires Good(s) && c0.audit <= s.committed.audit && EnabledOnRecord(c0, s.committed)
    ensures EnabledOnRecord(c0, AfterCommit(s, k).committed)
  {
    hide Good, View, TxOk, OthersSame, LiveIn, Appended;
    CommitStepIsAudited(s, k, x);
    TxIsOk(s, k);
    var c, c' := s.committed, AfterCommit(s, k).committed;
    AppendedGrows(c0, c, c');
    forall f | f in c'.flags && c'.flags[f].enabled
      ensures exists row :: row in Appended(c0, c') && SaysUpdated(row, f)
    {
      CommitEnables(c, s.issued, s.txs[k], x, f);
      if s.txs[k].mutation.UpdateFlag? && f == x {
        assert SaysUpdated(c'.audit[|c.audit|], f);
      } else {
        RecordSurvives(c0, c, c', f);
      }
    }
  }

  lemma {:induction false} EnabledAlwaysOnRecord(s: State, steps: seq<Step>)
    requires Initial(s) && Legal(s, steps)
    requires forall f :: f in s.committed.flags ==> !s.committed.flags[f].enabled
    ensures EnabledOnRecord(s.committed, Final(s, steps).committed)
    ensures s.committed.audit <= Final(s, steps).committed.audit
    decreases |steps|
  {
    if steps != [] {
      var init, step := steps[..|steps| - 1], steps[|steps| - 1];
      EnabledAlwaysOnRecord(s, init);
      GoodAlways(s, init);
      var f := Final(s, init);
      hide Good, EnabledOnRecord;
      if step.Commit? {
        var x := f.txs[step.k].phase.target;
        EnabledAfterCommit(s.committed, f, step.k, x);
        CommitStepIsAudited(f, step.k, x);
      } else {
        OtherStepsWriteNothing(f, step);
        AssignmentsOffRecord(s.committed, f.committed, Final(s, steps).committed);
      }
    }
  }

  lemma AssignmentsOffRecord(c0: Tables, c: Tables, c': Tables)
    requires EnabledOnRecord(c0, c) && c' == c.(assignments := c'.assignments)
    ensures EnabledOnRecord(c0, c')
  {
    assert Appended(c0, c') == Appended(c0, c);
  }

  /** Starting with no flag enabled, a flag that ever evaluates to true was updated on the record by its first read. */
  lemma TrueHasUpdateEntry(lib: Library, s: State, moves: seq<Move>, n: nat)
    requires Initial(s) && Lawful(Starts(lib, s), moves)
    requires forall f :: f in s.committed.flags ==> !s.committed.flags[f].enabled
    requires var y := End(Starts(lib, s), moves); n in y.readers && y.readers[n].progress.Told?
    requires End(Starts(lib, s), moves).readers[n].progress.verdict == Success(true)
    ensures var r := End(Starts(lib, s), moves).readers[n]; var steps := StepsOf(moves);
      && Legal(s, steps) && r.progress.from <= |steps|
      && var c := TablesAt(s, steps, r.progress.from); var found := FindFlag(c.flags, r.key, r.environment);
         && found.Some?
         && exists row :: row in Appended(s.committed, c) && SaysUpdated(row, found.value)
  {
    AnswersAreTwoReads(lib, s, moves);
    var r, steps := End(Starts(lib, s), moves).readers[n], StepsOf(moves);
    assert ReadRight(lib, s, steps, r);
    var i := r.progress.from;
    PrefixLegal(s, steps, i);
    EnabledAlwaysOnRecord(s, steps[..i]);
    hide Legal, Final, Initial, AfterRules, Appended, Lawful, End;
    assert EnabledOnRecord(s.committed, TablesAt(s, steps, i));
  }

  // ---------------------------------------------------------------- frame

  lemma SameRulesSameIds(c: Tables, c': Tables, f: Uuid)
    requires SameRules(c, c', f)
    ensures RuleIds(c.rules, f) == RuleIds(c'.rules, f)
  {
    forall r
      ensures r in RuleIds(c.rules, f) <==> r in RuleIds(c'.rules, f)
    {
      assert SameRow(c.rules, c'.rules, r) || (r !in RuleIds(c.rules, f) && r !in RuleIds(c'.rules, f));
    }
  }

  lemma SameRulesSameList(c: Tables, c': Tables, f: Uuid)
    requires SameRules(c, c', f)
    ensures RulesOf(c.rules, f) == RulesOf(c'.rules, f)
  {
    SameRulesSameIds(c, c', f);
    var ids := Sorted(RuleIds(c.rules, f));
    forall i | 0 <= i < |ids|
      ensures ids[i] in c.rules && ids[i] in c'.rules && c.rules[ids[i]] == c'.rules[ids[i]]
    {
      assert ids[i] in RuleIds(c.rules, f);
    }
  }

  /** The flag of a key and environment, its row and its rules are the same in two states. */
  ghost predicate SameFlag(c: Tables, c': Tables, key: string, environment: string) {
    var found := FindFlag(c.flags, key, environment);
    && found == FindFlag(c'.flags, key, environment)
    && (found.Some? ==>
          && c.flags[found.value] == c'.flags[found.value]
          && RulesOf(c.rules, found.value) == RulesOf(c'.rules, found.value))
  }

  lemma SameFlagChain(a: Tables, b: Tables, c: Tables, key: string, environment: string)
    requires SameFlag(a, b, key, environment) && SameFlag(b, c, key, environment)
    ensures SameFlag(a, c, key, environment)
  {
    hide FindFlag, RulesOf;
  }

  /** Reads of states that agree on the flag give the answer of each of them. */
  lemma SameFlagSameAnswer(
    a: Tables, b: Tables, c: Tables, lib: Library, key: string, environment: string, ctx: EvaluationContext)
    requires SameFlag(a, b, key, environment) && SameFlag(a, c, key, environment)
    ensures TwoReads(lib, b, c, key, environment, ctx) == Evaluate(lib, a, key, environment, ctx)
  {
    hide FindFlag, RulesOf, AfterRules;
  }

  lemma SameImageSameFlag(c: Tables, c': Tables, f: Uuid, key: string, environment: string)
    requires FindFlag(c.flags, key, environment) == Some(f) == FindFlag(c'.flags, key, environment)
    requires SameImage(c, c', FeatureFlag, f)
    ensures SameFlag(c, c', key, environment)
  {
    SameRulesSameList(c, c', f);
    hide RulesOf;
  }

  lemma FoundElsewhere(c: Tables, issued: set<Uuid>, tx: Tx, x: Uuid, key: string, environment: string)
    requires Consistent(c) && Consistent(View(c, tx.delta)) && TxOk(c, issued, tx) && tx.phase == Logged(x)
    requires !AimedAt(tx.mutation, key, environment)
    ensures FindFlag(c.flags, key, environment) == FindFlag(View(c, tx.delta).flags, key, environment)
    ensures FindFlag(c.flags, key, environment).Some? && EntityOf(tx.mutation) == FeatureFlag ==>
      FindFlag(c.flags, key, environment).value != x
  {
    hide RulesOk, VariantsOk, AssignmentsOk, UsersOk, AuditFor;
    var c' := View(c, tx.delta);
    var before, after := FindFlag(c.flags, key, environment), FindFlag(c'.flags, key, environment);
    assert Touches(c, tx.delta, EntityOf(tx.mutation), x);
    if before.Some? {
      assert before.value in c'.flags && c'.flags[before.value] == c.flags[before.value];
      assert after.Some?;
      assert FlagKeyOf(c'.flags[after.value]) == FlagKeyOf(c'.flags[before.value]);
    }
  }

  /** A committed mutation never changes a flag it is not aimed at. */
  lemma CommitKeepsOtherFlags(s: State, k: nat, x: Uuid, key: string, environment: string)
    requires k in s.txs && s.txs[k].phase == Logged(x)
    requires Good(s) && !AimedAt(s.txs[k].mutation, key, environment)
    ensures SameFlag(s.committed, AfterCommit(s, k).committed, key, environment)
  {
    var c, c' := s.committed, AfterCommit(s, k).committed;
    hide View, Consistent, TxOk, Isolated, SameImage;
    TxIsOk(s, k);
    CommitStepIsAudited(s, k, x);
    FoundElsewhere(c, s.issued, s.txs[k], x, key, environment);
    var found := FindFlag(c.flags, key, environment);
    if found.Some? {
      assert SameImage(c, c', FeatureFlag, found.value);
      SameImageSameFlag(c, c', found.value, key, environment);
    }
  }

  /** So it does not matter for an evaluation on which side of such a commit either of its reads falls. */
  lemma CommitKeepsOtherAnswers(
    s: State, k: nat, x: Uuid, lib: Library, key: string, environment: string, ctx: EvaluationContext)
    requires k in s.txs && s.txs[k].phase == Logged(x)
    requires Good(s) && !AimedAt(s.txs[k].mutation, key, environment)
    ensures var c, c' := s.committed, AfterCommit(s, k).committed;
      && Evaluate(lib, c', key, environment, ctx) == Evaluate(lib, c, key, environment, ctx)
      && TwoReads(lib, c, c', key, environment, ctx) == Evaluate(lib, c, key, environment, ctx)
  {
    hide Good, AimedAt, AfterCommit, SameFlag, TwoReads;
    var c, c' := s.committed, AfterCommit(s, k).committed;
    CommitKeepsOtherFlags(s, k, x, key, environment);
    AssignmentsKeepFlag(c, c, key, environment);
    SameFlagSameAnswer(c, c', c', lib, key, environment, ctx);
    SameFlagSameAnswer(c, c, c', lib, key, environment, ctx);
  }

  lemma AssignmentsKeepFlag(c: Tables, c': Tables, key: string, environment: string)
    requires c' == c.(assignments := c'.assignments)
    ensures SameFlag(c, c', key, environment)
  {
  }

  /** A flag that is created has no rules but those its own transaction inserted. */
  lemma NewFlagInheritsNothing(s: State, k: nat, x: Uuid, r: Uuid)
    requires k in s.txs && s.txs[k].phase == Logged(x) && s.txs[k].mutation.CreateFlag?
    requires Good(s)
    requires r in AfterCommit(s, k).committed.rules && AfterCommit(s, k).committed.rules[r].flag == x
    ensures r !in s.committed.rules
    ensures r in s.txs[k].delta.rules && s.txs[k].delta.rules[r] == Some(AfterCommit(s, k).committed.rules[r])
  {
    hide Isolated, AllViewsConsistent, UsersOk, VariantsOk, AssignmentsOk, UniqueBy, AuditFor;
    TxIsOk(s, k);
    assert Touches(s.committed, s.txs[k].delta, FeatureFlag, x);
  }

  // ---------------------------------------------------------------- whole runs

  /** A transaction keeps its mutation. */
  lemma {:induction false} MutationStaysOn(s: State, steps: seq<Step>, i: nat, k: nat)
    requires Legal(s, steps) && i <= |steps| && k in StateAt(s, steps, i).txs
    ensures k in Final(s, steps).txs && Final(s, steps).txs[k].mutation == StateAt(s, steps, i).txs[k].mutation
    decreases |steps| - i
  {
    hide Enabled, After, StateAt, Legal, Final;
    StateAtEnd(s, steps);
    if i < |steps| {
      StateAtNext(s, steps, i);
      TxsKept(StateAt(s, steps, i), steps[i], k);
      MutationStaysOn(s, steps, i + 1, k);
    }
  }

  /** No flag mutation aimed at this key and environment commits from time i to time j. */
  ghost predicate Quiet(s: State, steps: seq<Step>, i: nat, j: nat, key: string, environment: string)
    requires Legal(s, steps)
  {
    var txs := Final(s, steps).txs;
    forall n :: i <= n < j && n < |steps| && steps[n].Commit? && steps[n].k in txs ==>
      !AimedAt(txs[steps[n].k].mutation, key, environment)
  }

  lemma StepKeepsFlag(s: State, step: Step, key: string, environment: string)
    requires Good(s) && Enabled(s, step)
    requires step.Commit? ==> !AimedAt(s.txs[step.k].mutation, key, environment)
    ensures SameFlag(s.committed, After(s, step).committed, key, environment)
  {
    hide Good, AimedAt, SameFlag;
    if step.Commit? {
      CommitKeepsOtherFlags(s, step.k, s.txs[step.k].phase.target, key, environment);
    } else {
      OtherStepsWriteNothing(s, step);
      AssignmentsKeepFlag(s.committed, After(s, step).committed, key, environment);
    }
  }

  /** A flag stays as it is while no committed mutation is aimed at it. */
  lemma {:induction false} SameFlagWhileQuiet(
    s: State, steps: seq<Step>, i: nat, j: nat, key: string, environment: string)
    requires Initial(s) && Legal(s, steps) && i <= j <= |steps| && Quiet(s, steps, i, j, key, environment)
    ensures SameFlag(TablesAt(s, steps, i), TablesAt(s, steps, j), key, environment)
    decreases j - i
  {
    hide Enabled, After, Initial, StateAt, Good, AimedAt, SameFlag, Legal, Final;
    if i == j {
      AssignmentsKeepFlag(TablesAt(s, steps, i), TablesAt(s, steps, j), key, environment);
    } else {
      var f, step := StateAt(s, steps, j - 1), steps[j - 1];
      SameFlagWhileQuiet(s, steps, i, j - 1, key, environment);
      StateAtNext(s, steps, j - 1);
      GoodAt(s, steps, j - 1);
      if step.Commit? {
        CommitsOwn(f, step);
        MutationStaysOn(s, steps, j - 1, step.k);
      }
      StepKeepsFlag(f, step, key, environment);
      SameFlagChain(TablesAt(s, steps, i), f.committed, TablesAt(s, steps, j), key, environment);
    }
  }

  lemma CommitsOwn(s: State, step: Step)
    requires step.Commit? && Enabled(s, step)
    ensures step.k in s.txs
  {
  }

  lemma GoodAt(s: State, steps: seq<Step>, i: nat)
    requires Initial(s) && Legal(s, steps) && i <= |steps|
    ensures Good(StateAt(s, steps, i))
  {
    hide Good, Initial, Legal, Final;
    PrefixLegal(s, steps, i);
    GoodAlways(s, steps[..i]);
  }

  /**
   An evaluation answers as if both its reads were one, at any time from its first to its
   last read, if no mutation aimed at its flag commits between them.
   */
  lemma QuietAnswer(lib: Library, s: State, moves: seq<Move>, n: nat, at: nat)
    requires Initial(s) && Lawful(Starts(lib, s), moves) && Legal(s, StepsOf(moves))
    requires var y := End(Starts(lib, s), moves); n in y.readers && y.readers[n].progress.Told?
    requires var r := End(Starts(lib, s), moves).readers[n];
      && r.progress.from <= at <= r.progress.to
      && Quiet(s, StepsOf(moves), r.progress.from, r.progress.to, r.key, r.environment)
    ensures at <= |StepsOf(moves)|
    ensures var r := End(Starts(lib, s), moves).readers[n];
      r.progress.verdict == Evaluate(lib, TablesAt(s, StepsOf(moves), at), r.key, r.environment, r.ctx)
  {
    AnswersAreTwoReads(lib, s, moves);
    var r, steps := End(Starts(lib, s), moves).readers[n], StepsOf(moves);
    assert ReadRight(lib, s, steps, r);
    QuietReads(lib, s, steps, r.progress.from, at, r.progress.to, r.key, r.environment, r.ctx);
  }

  lemma QuietReads(
    lib: Library, s: State, steps: seq<Step>, i: nat, at: nat, j: nat, key: string, environment: string,
    ctx: EvaluationContext)
    requires Initial(s) && Legal(s, steps) && i <= at <= j <= |steps| && Quiet(s, steps, i, j, key, environment)
    ensures TwoReads(lib, TablesAt(s, steps, i), TablesAt(s, steps, j), key, environment, ctx)
      == Evaluate(lib, TablesAt(s, steps, at), key, environment, ctx)
  {
    hide Initial, Legal, Final, StateAt, AimedAt, TwoReads;
    SameFlagWhileQuiet(s, steps, i, at, key, environment);
    SameFlagWhileQuiet(s, steps, at, j, key, environment);
    SameFlagSameAnswer(
      TablesAt(s, steps, at), TablesAt(s, steps, i), TablesAt(s, steps, j), lib, key, environment, ctx);
  }

  /** Every evaluation answers as at the start of the run until a committed mutation is aimed at its flag. */
  lemma AnswerStaysUntilAimedAt(lib: Library, s: State, moves: seq<Move>, n: nat)
    requires Initial(s) && Lawful(Starts(lib, s), moves) && Legal(s, StepsOf(moves))
    requires var y := End(Starts(lib, s), moves); n in y.readers && y.readers[n].progress.Told?
    requires var r := End(Starts(lib, s), moves).readers[n];
      Quiet(s, StepsOf(moves), 0, r.progress.to, r.key, r.environment)
    ensures var r := End(Starts(lib, s), moves).readers[n];
      r.progress.verdict == Evaluate(lib, s.committed, r.key, r.environment, r.ctx)
  {
    AnswersAreTwoReads(lib, s, moves);
    var r, steps := End(Starts(lib, s), moves).readers[n], StepsOf(moves);
    assert ReadRight(lib, s, steps, r);
    hide Initial, Legal, Final, StateAt, AimedAt, TwoReads, Lawful, End;
    QuietReads(lib, s, steps, r.progress.from, r.progress.from, r.progress.to, r.key, r.environment, r.ctx);
    SameFlagWhileQuiet(s, steps, 0, r.progress.from, r.key, r.environment);
    StateAtStart(s, steps);
    AssignmentsKeepFlag(s.committed, s.committed, r.key, r.environment);
    SameFlagSameAnswer(s.committed, TablesAt(s, steps, r.progress.from), TablesAt(s, steps, r.progress.from),
      lib, r.key, r.environment, r.ctx);
  }

  lemma StateAtStart(s: State, steps: seq<Step>)
    requires Legal(s, steps)
    ensures StateAt(s, steps, 0) == s
  {
    assert steps[..0] == [];
  }
}
