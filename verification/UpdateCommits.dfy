/**
 The strategy invariant at each commit of any run: rules stay matched if and only if no update
 commits over a surviving rule that asks for another strategy than the one it writes. Which
 inputs can lead to such a commit is the subject of Clashes, Contests and ClashRuns.
 */
module UpdateCommits {
  import opened Wrappers
  import opened Schema
  import opened Statements
  import opened FlagRules
  import opened Protocol
  import opened Transactions
  import opened Interleaving
  import opened Isolation
  import opened Reachable
  import opened AuditTrail
  import opened Evaluation
  import opened StrategyMatch

  // ---------------------------------------------------------------- what a transaction writes itself

  ghost predicate OwnRules(tx: Tx, x: Uuid, todo: seq<Statement>) {
    && (tx.mutation.CreateFlag? ==> CreateMatches(tx.mutation.newFlag, tx.delta, x, todo))
    && (tx.mutation.UpdateFlag? ==>
          GoalOf(tx.delta, x, todo).Some? && RowsMatch(tx.delta, todo, GoalOf(tx.delta, x, todo).value))
  }

  /** The rules a flag mutation inserts ask for the strategy it writes, whatever others do. */
  ghost predicate OwnMatch(tx: Tx) {
    match tx.phase
    case Running(x, todo) => OwnRules(tx, x, todo)
    case Logged(x) => OwnRules(tx, x, [])
    case _ => true
  }

  ghost predicate OwnMatches(s: State) {
    forall k :: k in s.txs ==> OwnMatch(s.txs[k])
  }

  lemma OwnUpdateAfterStatement(c: Tables, d: Delta, x: Uuid, todo: seq<Statement>, id: Uuid, missed: set<Uuid>)
    requires todo != [] && GoalOf(d, x, todo).Some? && RowsMatch(d, todo, GoalOf(d, x, todo).value)
    requires todo[0].UpdateFlag? ==> todo == [Statement.UpdateFlag(x, todo[0].flag)]
    requires todo[0].UpdateFlag? || todo[0].DeleteRules? || todo[0].InsertRule?
    ensures var d' := Record(c, d, todo[0], id, missed);
      GoalOf(d', x, todo[1..]) == GoalOf(d, x, todo) && RowsMatch(d', todo[1..], GoalOf(d, x, todo).value)
  {
    hide View;
    if todo[0].UpdateFlag? {
      assert Record(c, d, todo[0], id, missed).flags[x] == Some(todo[0].flag);
    } else {
      assert todo[1..] != [] && todo[1..][|todo[1..]| - 1] == todo[|todo| - 1];
    }
  }

  lemma OwnAfterStatement(c: Tables, issued: set<Uuid>, tx: Tx, id: Uuid, missed: set<Uuid>)
    requires TxOk(c, issued, tx) && OwnMatch(tx) && Waiting(tx)
    ensures OwnMatch(AfterStatement(c, tx, id, missed))
  {
    hide View, Touches, Standing, CreateMatches, RowsMatch, GoalOf;
    var stmt, m := NextStatement(tx), tx.mutation;
    if Exec(View(c, tx.delta), stmt, id).Applied? && EntityOf(m) == FeatureFlag {
      if tx.phase.Inserting? {
        ParentMatches(c, m, stmt, id, missed);
      } else {
        var x, todo := tx.phase.target, tx.phase.todo;
        assert OnTarget(m, x, stmt);
        StatementKinds(c, issued, tx);
        if m.CreateFlag? {
          CreateAfterStatement(c, m.newFlag, tx.delta, x, todo, id, missed);
        } else if m.UpdateFlag? {
          OwnUpdateAfterStatement(c, tx.delta, x, todo, id, missed);
        }
      }
    }
  }

  lemma ReadOwn(s: State, k: nat)
    requires Enabled(s, Read(k)) && TxOk(s.committed, s.issued, s.txs[k])
    ensures OwnMatch(AfterRead(s, s.txs[k]))
  {
    hide Decide;
    var m := s.txs[k].mutation;
    if Decide(s.committed, m).Success? {
      if m.UpdateFlag? {
        DecidedUpdateMatches(s.committed, m);
      } else if m.CreateFlag? {
        DecideCreatesFlag(s.committed, m);
      }
    }
  }

  lemma LogOwn(tx: Tx)
    requires OwnMatch(tx) && tx.phase.Running? && tx.phase.todo == []
    ensures OwnMatch(AfterLog(tx, tx.phase.target))
  {
  }

  lemma IdleOwn(tx: Tx)
    requires TargetOf(tx).None?
    ensures OwnMatch(tx)
  {
  }

  lemma NewsOwn(tx: Tx, news: set<Uuid>)
    requires OwnMatch(tx)
    ensures OwnMatch(tx.(news := news))
  {
  }

  lemma OwnAfterStep(s: State, step: Step)
    requires Good(s) && OwnMatches(s) && Enabled(s, step)
    ensures OwnMatches(After(s, step))
  {
    hide Consistent, AllViewsConsistent, Isolated, View, Exec, Admit, OwnRules, AfterStatement, TxOk;
    var s' := After(s, step);
    forall k | k in s'.txs
      ensures OwnMatch(s'.txs[k])
    {
      if k in s.txs {
        assert OwnMatch(s.txs[k]) && TxOk(s.committed, s.issued, s.txs[k]);
      }
      if step.Execute? && step.k == k {
        OwnAfterStatement(s.committed, s.issued, s.txs[k], step.id, step.missed);
      } else if step.Read? && step.k == k {
        ReadOwn(s, k);
      } else if step.Log? && step.k == k {
        LogOwn(s.txs[k]);
      } else if (step.Open? || step.Fault? || step.Commit?) && step.k == k {
        IdleOwn(s'.txs[k]);
      } else if step.Commit? {
        NewsOwn(s.txs[k], s'.txs[k].news);
      }
    }
  }

  // ---------------------------------------------------------------- one commit

  /** No rule of the flag survives the update and asks for another strategy than it writes. */
  ghost predicate Clean(c: Tables, d: Delta, x: Uuid) {
    x in d.flags && d.flags[x].Some? &&
    forall r :: r in c.rules && c.rules[r].flag == x && r !in d.rules ==>
      StrategyOf(c.rules[r].kind) == d.flags[x].value.strategy
  }

  lemma UpdateCommitIff(c: Tables, issued: set<Uuid>, tx: Tx, x: Uuid)
    requires TxOk(c, issued, tx) && tx.phase == Logged(x) && tx.mutation.UpdateFlag? && OwnMatch(tx)
    ensures x in View(c, tx.delta).flags && (Clean(c, tx.delta, x) <==> FlagMatched(View(c, tx.delta), x))
  {
    hide AuditFor;
    var d, v := tx.delta, View(c, tx.delta);
    assert Standing(c, tx.mutation, d, x);
    assert OnlyFlag(c, d, x) && Wrote(tx.mutation, d, x);
    assert OwnRules(tx, x, []);
    assert v.flags[x] == d.flags[x].value;
    if Clean(c, d, x) {
    } else {
      var r :| r in c.rules && c.rules[r].flag == x && r !in d.rules
        && StrategyOf(c.rules[r].kind) != d.flags[x].value.strategy;
      assert r in v.rules && v.rules[r] == c.rules[r];
    }
  }

  lemma OwnCreateMatches(c: Tables, tx: Tx, x: Uuid)
    requires OwnMatch(tx) && tx.phase == Logged(x) && tx.mutation.CreateFlag?
    ensures TxMatches(c, tx)
  {
  }

  /** A commit on matched tables leaves them matched exactly if, being an update, it is clean. */
  lemma CommitMatchedIff(c: Tables, issued: set<Uuid>, tx: Tx, x: Uuid)
    requires Consistent(c) && TxOk(c, issued, tx) && tx.phase == Logged(x)
    requires OwnMatch(tx) && Matched(c)
    ensures Matched(View(c, tx.delta)) <==> (tx.mutation.UpdateFlag? ==> Clean(c, tx.delta, x))
  {
    hide Consistent, TxOk, OwnMatch, TxMatches, View, SameImage, Clean;
    var v, m := View(c, tx.delta), tx.mutation;
    CommitKeepsOthers(c, issued, tx, x);
    if m.UpdateFlag? {
      UpdateCommitIff(c, issued, tx, x);
    } else if m.CreateFlag? {
      OwnCreateMatches(c, tx, x);
      CreateCommitMatches(c, issued, tx, x);
    } else if m.DeleteFlag? {
      DeletedFlagHasNothing(c, issued, tx, x);
    }
    forall r | r in v.rules && v.rules[r].flag in v.flags && (EntityOf(m) != FeatureFlag || v.rules[r].flag != x)
      ensures StrategyOf(v.rules[r].kind) == v.flags[v.rules[r].flag].strategy
    {
      assert SameImage(c, v, FeatureFlag, v.rules[r].flag);
      OtherFlagMatches(c, v, v.rules[r].flag, r);
    }
  }

  // ---------------------------------------------------------------- whole runs

  /** Every update that commits in the run is clean when it does. */
  ghost predicate CleanRun(s: State, steps: seq<Step>)
    requires Legal(s, steps)
    decreases |steps|
  {
    steps != [] ==>
      var init, step := steps[..|steps| - 1], steps[|steps| - 1];
      var f := Final(s, init);
      && CleanRun(s, init)
      && (step.Commit? && f.txs[step.k].mutation.UpdateFlag? ==>
            Clean(f.committed, f.txs[step.k].delta, f.txs[step.k].phase.target))
  }

  /** Rules are matched in every state of the run. */
  ghost predicate AlwaysMatched(s: State, steps: seq<Step>)
    requires Legal(s, steps)
    decreases |steps|
  {
    Matched(Final(s, steps).committed) && (steps != [] ==> AlwaysMatched(s, steps[..|steps| - 1]))
  }

  lemma {:induction false} OwnAlways(s: State, steps: seq<Step>)
    requires Initial(s) && Legal(s, steps)
    ensures OwnMatches(Final(s, steps))
    decreases |steps|
  {
    if steps != [] {
      OwnAlways(s, steps[..|steps| - 1]);
      GoodAlways(s, steps[..|steps| - 1]);
      hide Good, OwnMatches;
      OwnAfterStep(Final(s, steps[..|steps| - 1]), steps[|steps| - 1]);
    }
  }

  lemma StepMatchedIff(s: State, step: Step)
    requires Good(s) && OwnMatches(s) && Enabled(s, step) && Matched(s.committed)
    ensures Matched(After(s, step).committed) <==>
      (step.Commit? && s.txs[step.k].mutation.UpdateFlag? ==>
         Clean(s.committed, s.txs[step.k].delta, s.txs[step.k].phase.target))
  {
    hide Consistent, AllViewsConsistent, Isolated, TxOk, OwnMatch, View, Matched, Clean;
    if step.Commit? {
      assert TxOk(s.committed, s.issued, s.txs[step.k]) && OwnMatch(s.txs[step.k]);
      CommitMatchedIff(s.committed, s.issued, s.txs[step.k], s.txs[step.k].phase.target);
    } else {
      MatchedIgnoresAssignments(s, step);
    }
  }

  /** Rules match in every state of a run if and only if every update that commits in it is clean. */
  lemma {:induction false} AlwaysMatchedIff(s: State, steps: seq<Step>)
    requires Initial(s) && Matched(s.committed) && Legal(s, steps)
    ensures AlwaysMatched(s, steps) <==> CleanRun(s, steps)
    decreases |steps|
  {
    if steps != [] {
      var init, step := steps[..|steps| - 1], steps[|steps| - 1];
      AlwaysMatchedIff(s, init);
      GoodAlways(s, init);
      OwnAlways(s, init);
      var f := Final(s, init);
      hide Good, OwnMatches, Matched, Clean, Initial, After, Enabled;
      if AlwaysMatched(s, init) {
        assert Matched(f.committed);
        StepMatchedIff(f, step);
      }
    }
  }
}
