/**
 Updates of one flag that do not clash leave its rules matched to its strategy in every run,
 whatever other mutations, calls and faults the run has besides.
 */
module Contests {
  import opened Wrappers
  import opened Schema
  import opened Statements
  import opened FlagRules
  import opened Protocol
  import opened Transactions
  import opened Interleaving
  import opened Isolation
  import opened Reachable
  import opened AuditTrail
  import opened Evaluation
  import opened TxSteps
  import opened RolloutHistory
  import opened StrategyMatch
  import opened UpdateCommits
  import opened Clashes

  /** Updates of one flag; the k-th of them is for transaction k to carry out. */
  datatype Contest = Contest(changes: seq<UpdateFlagInput>, key: string, environment: string)

  ghost predicate OfOneFlag(g: Contest) {
    forall k :: 0 <= k < |g.changes| ==>
      g.changes[k].key == g.key && EnvironmentOf(g.changes[k]) == g.environment
  }

  /** The other transactions carry out anything that is aimed at another flag. */
  predicate Cast(g: Contest, k: nat, m: Mutation) {
    if k < |g.changes| then m == Mutation.UpdateFlag(g.changes[k]) else !AimedAt(m, g.key, g.environment)
  }

  predicate Admits(g: Contest, step: Step) {
    step.Open? ==> Cast(g, step.k, step.mutation)
  }

  ghost predicate RunOf(g: Contest, steps: seq<Step>) {
    forall i :: 0 <= i < |steps| ==> Admits(g, steps[i])
  }

  // ---------------------------------------------------------------- the stages of such a run

  /**
   Uniform: every update that is still to commit leaves the same strategy. Empty: the flag has
   no rules and gets none. Before: the flag has a strategy, and so far no update brings rules.
   */
  datatype Stage = Uniform(goal: Strategy) | Empty | Before

  function TodoOf(tx: Tx): seq<Statement> {
    if tx.phase.Running? then tx.phase.todo else []
  }

  ghost predicate InsertsNothing(d: Delta, todo: seq<Statement>) {
    && (forall r :: r in d.rules ==> d.rules[r] == None)
    && (forall i :: 0 <= i < |todo| ==> !todo[i].InsertRule?)
  }

  ghost predicate NoRulesOf(c: Tables, f: Uuid) {
    forall r :: r in c.rules ==> c.rules[r].flag != f
  }

  ghost predicate StageOk(stage: Stage, c: Tables, f: Uuid) {
    match stage
    case Uniform(goal) => FlagMatched(c, f) && goal != NoStrategy && c.flags[f].strategy in {NoStrategy, goal}
    case Empty => f in c.flags && NoRulesOf(c, f)
    case Before => FlagMatched(c, f) && c.flags[f].strategy != NoStrategy
  }

  /** An update that has not read yet. */
  predicate PendingOk(stage: Stage, current: Strategy, change: UpdateFlagInput) {
    match stage
    case Uniform(goal) => GoesTo(current, change, goal)
    case Empty => KindBrought(change).None?
    case Before => KindBrought(change).Some? ==> ResolveStrategyForUpdate(current, change.rules).Failure?
  }

  /** An update that has read and not yet ended. */
  ghost predicate FlightOk(stage: Stage, c: Tables, tx: Tx, f: Uuid) {
    && tx.mutation.UpdateFlag? && TargetOf(tx) == Some(f)
    && match stage
       case Uniform(goal) => GoalOf(tx.delta, f, TodoOf(tx)) == Some(goal)
       case Empty => InsertsNothing(tx.delta, TodoOf(tx))
       case Before => f in c.flags && TakesWithoutRules(c.flags[f].strategy, tx, f) && TxMatches(c, tx)
  }

  /** It was accepted on this strategy, without bringing rules. */
  ghost predicate TakesWithoutRules(current: Strategy, tx: Tx, f: Uuid)
    requires tx.mutation.UpdateFlag?
  {
    var change := tx.mutation.flagChange;
    && KindBrought(change).None?
    && InsertsNothing(tx.delta, TodoOf(tx))
    && ResolveStrategyForUpdate(current, change.rules).Success?
    && GoalOf(tx.delta, f, TodoOf(tx)) == Some(ResolveStrategyForUpdate(current, change.rules).value)
  }

  ghost predicate MemberOk(stage: Stage, s: State, k: nat, change: UpdateFlagInput, f: Uuid) {
    && f in s.committed.flags
    && (Undecided(s.txs, k) ==> PendingOk(stage, s.committed.flags[f].strategy, change))
    && (k in s.txs && TargetOf(s.txs[k]).Some? ==> FlightOk(stage, s.committed, s.txs[k], f))
  }

  ghost predicate MembersOk(stage: Stage, s: State, g: Contest, f: Uuid) {
    forall k :: 0 <= k < |g.changes| ==> MemberOk(stage, s, k, g.changes[k], f)
  }

  ghost predicate AllCast(txs: map<nat, Tx>, g: Contest) {
    forall k :: k in txs ==> Cast(g, k, txs[k].mutation)
  }

  /** What holds in every state of a run of updates that do not clash. */
  ghost predicate InStage(stage: Stage, s: State, g: Contest, f: Uuid) {
    && AllCast(s.txs, g)
    && FindFlag(s.committed.flags, g.key, g.environment) == Some(f)
    && StageOk(stage, s.committed, f)
    && MembersOk(stage, s, g, f)
  }

  lemma StageIsMatched(stage: Stage, c: Tables, f: Uuid)
    requires StageOk(stage, c, f)
    ensures FlagMatched(c, f)
  {
  }

  // ---------------------------------------------------------------- the start

  lemma NoTypeIsNoStrategy(c: Tables, f: Uuid)
    requires FlagMatched(c, f) && c.flags[f].strategy == NoStrategy
    ensures NoRulesOf(c, f)
  {
  }

  /** The others go where the update goes that brings the rules. */
  lemma AllGo(current: Strategy, changes: seq<UpdateFlagInput>, i: nat, k: nat)
    requires !ClashPair(current, changes) && i < |changes| && k < |changes|
    requires KindBrought(changes[i]).Some? && current in {NoStrategy, StrategyOf(KindBrought(changes[i]).value)}
    ensures GoesTo(current, changes[k], StrategyOf(KindBrought(changes[i]).value))
  {
    hide GoesTo, Diverts, KindBrought;
    if k == i {
      BringerGoes(current, changes[i]);
    } else {
      assert !ClashOneWay(current, changes[i], changes[k]);
      NotDiverting(current, changes[k], StrategyOf(KindBrought(changes[i]).value));
    }
  }

  predicate BringsRules(current: Strategy, change: UpdateFlagInput) {
    KindBrought(change).Some? && current in {NoStrategy, StrategyOf(KindBrought(change).value)}
  }

  lemma NotBringing(current: Strategy, change: UpdateFlagInput)
    requires !BringsRules(current, change)
    ensures PendingOk(if current == NoStrategy then Empty else Before, current, change)
  {
  }

  lemma StartsInStage(s: State, g: Contest, f: Uuid) returns (stage: Stage)
    requires s.txs == map[] && FindFlag(s.committed.flags, g.key, g.environment) == Some(f)
    requires FlagMatched(s.committed, f) && !ClashPair(s.committed.flags[f].strategy, g.changes)
    ensures InStage(stage, s, g, f)
  {
    var current := s.committed.flags[f].strategy;
    hide FlagMatched, NoRulesOf, ClashPair, GoesTo, KindBrought, PendingOk, FindFlag, BringsRules;
    if i :| 0 <= i < |g.changes| && BringsRules(current, g.changes[i]) {
      stage := StartsUniform(s, g, f, i);
    } else {
      stage := if current == NoStrategy then Empty else Before;
      if current == NoStrategy {
        NoTypeIsNoStrategy(s.committed, f);
      }
      forall k | 0 <= k < |g.changes|
        ensures MemberOk(stage, s, k, g.changes[k], f)
      {
        NotBringing(current, g.changes[k]);
      }
    }
  }

  lemma StartsUniform(s: State, g: Contest, f: Uuid, i: nat) returns (stage: Stage)
    requires s.txs == map[] && FindFlag(s.committed.flags, g.key, g.environment) == Some(f)
    requires FlagMatched(s.committed, f) && !ClashPair(s.committed.flags[f].strategy, g.changes)
    requires i < |g.changes| && BringsRules(s.committed.flags[f].strategy, g.changes[i])
    ensures InStage(stage, s, g, f)
  {
    hide FlagMatched, ClashPair, GoesTo, KindBrought, FindFlag;
    var current := s.committed.flags[f].strategy;
    stage := Uniform(StrategyOf(KindBrought(g.changes[i]).value));
    forall k | 0 <= k < |g.changes|
      ensures MemberOk(stage, s, k, g.changes[k], f)
    {
      AllGo(current, g.changes, i, k);
    }
  }

  // ---------------------------------------------------------------- steps that commit nothing

  /** What an update decides from its reads. */
  lemma ReadDecides(s: State, k: nat, f: Uuid)
    requires Enabled(s, Read(k)) && s.txs[k].mutation.UpdateFlag? && s.txs[k].delta == NO_WRITES
    requires var change := s.txs[k].mutation.flagChange;
      FindFlag(s.committed.flags, change.key, EnvironmentOf(change)) == Some(f)
    ensures var tx, rules := AfterRead(s, s.txs[k]), s.txs[k].mutation.flagChange.rules;
      TargetOf(tx).Some? ==>
        && TargetOf(tx) == Some(f)
        && ResolveStrategyForUpdate(s.committed.flags[f].strategy, rules).Success?
        && GoalOf(tx.delta, f, TodoOf(tx))
             == Some(ResolveStrategyForUpdate(s.committed.flags[f].strategy, rules).value)
        && (NewRows(f, rules) == [] ==> InsertsNothing(tx.delta, TodoOf(tx)))
  {
    var m := s.txs[k].mutation;
    var change := m.flagChange;
    if Decide(s.committed, m).Success? {
      var row := EditedFlag(s.committed.flags[f], change).value;
      var before := RulesTodo(f, change.rules);
      var todo := Decide(s.committed, m).value.todo;
      assert todo == before + [Statement.UpdateFlag(f, row)];
      if NewRows(f, change.rules) == [] {
        assert forall i :: 0 <= i < |before| ==> before[i] == DeleteRules(f);
      }
    }
  }

  lemma ReadKeepsFlight(stage: Stage, s: State, k: nat, f: Uuid)
    requires Enabled(s, Read(k)) && s.txs[k].mutation.UpdateFlag? && TxOk(s.committed, s.issued, s.txs[k])
    requires var change := s.txs[k].mutation.flagChange;
      && FindFlag(s.committed.flags, change.key, EnvironmentOf(change)) == Some(f)
      && StageOk(stage, s.committed, f) && PendingOk(stage, s.committed.flags[f].strategy, change)
    ensures var tx := AfterRead(s, s.txs[k]);
      tx.mutation == s.txs[k].mutation && (TargetOf(tx).Some? ==> FlightOk(stage, s.committed, tx, f))
  {
    ReadDecides(s, k, f);
    ReadMatches(s, k);
    var tx, change := AfterRead(s, s.txs[k]), s.txs[k].mutation.flagChange;
    ReadKeepsMutation(s, s.txs[k]);
    hide AfterRead, FindFlag, NewRows, KindBrought, TxMatches, FlagMatched, NoRulesOf, GoalOf, InsertsNothing,
      ResolveStrategyForUpdate, TodoOf, TxOk;
    if TargetOf(tx).Some? {
      BringsRowsIff(f, change, s.committed.flags[f].strategy);
    }
  }

  lemma ReadKeepsMutation(s: State, tx: Tx)
    ensures AfterRead(s, tx).mutation == tx.mutation
  {
    hide Decide;
  }

  lemma StatementKeepsGoal(c: Tables, issued: set<Uuid>, tx: Tx, id: Uuid, missed: set<Uuid>, f: Uuid)
    requires Waiting(tx) && TargetOf(tx) == Some(f) && TargetOf(AfterStatement(c, tx, id, missed)).Some?
    requires TxOk(c, issued, tx) && OwnMatch(tx) && tx.mutation.UpdateFlag?
    ensures var tx' := AfterStatement(c, tx, id, missed);
      && tx'.mutation == tx.mutation && TargetOf(tx') == Some(f)
      && GoalOf(tx'.delta, f, TodoOf(tx')) == GoalOf(tx.delta, f, TodoOf(tx))
      && (InsertsNothing(tx.delta, TodoOf(tx)) ==> InsertsNothing(tx'.delta, TodoOf(tx')))
  {
    hide View, Touches, Standing, CreateMatches, RowsMatch, GoalOf;
    var stmt := NextStatement(tx);
    if Exec(View(c, tx.delta), stmt, id).Applied? {
      var x, todo := tx.phase.target, tx.phase.todo;
      assert OnTarget(tx.mutation, x, stmt);
      StatementKinds(c, issued, tx);
      OwnUpdateAfterStatement(c, tx.delta, x, todo, id, missed);
    }
  }

  lemma StatementKeepsFlight(
    stage: Stage, c: Tables, issued: set<Uuid>, tx: Tx, id: Uuid, missed: set<Uuid>, f: Uuid)
    requires Waiting(tx) && FlightOk(stage, c, tx, f) && TargetOf(AfterStatement(c, tx, id, missed)).Some?
    requires TxOk(c, issued, tx) && OwnMatch(tx) && missed <= tx.news
    ensures FlightOk(stage, c, AfterStatement(c, tx, id, missed), f)
  {
    hide AfterStatement, TxOk, OwnMatch, GoalOf, InsertsNothing, TodoOf, TxMatches, KindBrought,
      ResolveStrategyForUpdate;
    StatementKeepsGoal(c, issued, tx, id, missed, f);
    if stage.Before? {
      MatchesAfterStatement(c, issued, tx, id, missed);
    }
  }

  lemma LogKeepsFlight(stage: Stage, c: Tables, tx: Tx, f: Uuid)
    requires FlightOk(stage, c, tx, f) && tx.phase.Running? && tx.phase.todo == []
    requires TargetOf(AfterLog(tx, tx.phase.target)).Some?
    ensures FlightOk(stage, c, AfterLog(tx, tx.phase.target), f)
  {
    if stage.Before? {
      LogMatches(c, tx);
    }
    hide TxMatches, KindBrought, ResolveStrategyForUpdate;
  }

  /** Neither what a step makes of assignments nor news of other flags' rules matters. */
  lemma FlightIgnoresAssignments(stage: Stage, c: Tables, c': Tables, tx: Tx, f: Uuid)
    requires FlightOk(stage, c, tx, f) && c'.flags == c.flags && c'.rules == c.rules
    ensures FlightOk(stage, c', tx, f)
  {
    if stage.Before? {
      MatchesIgnoreAssignments(c, c', tx);
    }
    hide TxMatches, TakesWithoutRules;
  }

  lemma StageIgnoresAssignments(stage: Stage, c: Tables, c': Tables, f: Uuid)
    requires StageOk(stage, c, f) && c'.flags == c.flags && c'.rules == c.rules
    ensures StageOk(stage, c', f)
  {
  }

  lemma CastKept(s: State, step: Step, g: Contest)
    requires Enabled(s, step) && AllCast(s.txs, g) && Admits(g, step)
    ensures AllCast(After(s, step).txs, g)
  {
    hide Enabled, After, Cast;
    forall k | k in After(s, step).txs
      ensures Cast(g, k, After(s, step).txs[k].mutation)
    {
      if k in s.txs {
        TxsKept(s, step, k);
      } else {
        TxsOpened(s, step, k);
      }
    }
  }

  lemma TxParts(s: State, k: nat)
    requires Good(s) && OwnMatches(s) && k in s.txs
    ensures TxOk(s.committed, s.issued, s.txs[k]) && OwnMatch(s.txs[k])
  {
  }

  lemma IsItsUpdate(txs: map<nat, Tx>, g: Contest, k: nat)
    requires OfOneFlag(g) && AllCast(txs, g) && k in txs && k < |g.changes|
    ensures txs[k].mutation == Mutation.UpdateFlag(g.changes[k])
    ensures g.changes[k].key == g.key && EnvironmentOf(g.changes[k]) == g.environment
  {
  }

  lemma WaitingUpdateRuns(c: Tables, issued: set<Uuid>, tx: Tx)
    requires TxOk(c, issued, tx) && tx.mutation.UpdateFlag? && Waiting(tx)
    ensures tx.phase.Running?
  {
  }

  lemma TargetIsSome(tx: Tx)
    ensures TargetOf(tx).Some? <==> tx.phase.Running? || tx.phase.Logged?
  {
  }

  lemma MemberParts(stage: Stage, s: State, k: nat, change: UpdateFlagInput, f: Uuid)
    requires MemberOk(stage, s, k, change, f) && k in s.txs
    ensures s.txs[k].phase.Opened? ==> PendingOk(stage, s.committed.flags[f].strategy, change)
    ensures s.txs[k].phase.Running? || s.txs[k].phase.Logged? ==> FlightOk(stage, s.committed, s.txs[k], f)
  {
    hide PendingOk, FlightOk;
  }

  lemma FlightAfterOther(stage: Stage, s: State, step: Step, g: Contest, k: nat, f: Uuid)
    requires Enabled(s, step) && !step.Commit? && Good(s) && OwnMatches(s)
    requires OfOneFlag(g) && AllCast(s.txs, g) && k < |g.changes|
    requires FindFlag(s.committed.flags, g.key, g.environment) == Some(f) && StageOk(stage, s.committed, f)
    requires MemberOk(stage, s, k, g.changes[k], f)
    requires k in After(s, step).txs && TargetOf(After(s, step).txs[k]).Some?
    ensures FlightOk(stage, s.committed, After(s, step).txs[k], f)
  {
    hide *;
    TxAfterOther(s, step, k);
    EnabledNeeds(s, step);
    TargetIsSome(After(s, step).txs[k]);
    TxParts(s, k);
    IsItsUpdate(s.txs, g, k);
    MemberParts(stage, s, k, g.changes[k], f);
    var tx' := After(s, step).txs[k];
    if tx' != s.txs[k] {
      if step == Read(k) {
        ReadKeepsFlight(stage, s, k, f);
      } else if step == Log(k) {
        LogKeepsFlight(stage, s.committed, s.txs[k], f);
      } else {
        WaitingUpdateRuns(s.committed, s.issued, s.txs[k]);
        StatementKeepsFlight(stage, s.committed, s.issued, s.txs[k], step.id, step.missed, f);
      }
    }
  }

  lemma InStageAfterOther(stage: Stage, s: State, step: Step, g: Contest, f: Uuid)
    requires Enabled(s, step) && !step.Commit? && Admits(g, step) && OfOneFlag(g)
    requires Good(s) && OwnMatches(s) && InStage(stage, s, g, f)
    ensures InStage(stage, After(s, step), g, f)
  {
    var c, s' := s.committed, After(s, step);
    OtherStepsWriteNothing(s, step);
    hide Good, OwnMatches, After, Enabled, StageOk, FlightOk, PendingOk, FindFlag, AllCast, Undecided;
    CastKept(s, step, g);
    StageIgnoresAssignments(stage, c, s'.committed, f);
    forall k | 0 <= k < |g.changes|
      ensures MemberOk(stage, s', k, g.changes[k], f)
    {
      assert MemberOk(stage, s, k, g.changes[k], f);
      if Undecided(s'.txs, k) {
        UndecidedBefore(s, step, k);
      }
      if k in s'.txs && TargetOf(s'.txs[k]).Some? {
        FlightAfterOther(stage, s, step, g, k, f);
        FlightIgnoresAssignments(stage, c, s'.committed, s'.txs[k], f);
      }
    }
  }

  // ---------------------------------------------------------------- commits that leave the strategy as it is

  /** The flag keeps its strategy and gets no rule. */
  ghost predicate OnlyLosesRules(c: Tables, c': Tables, f: Uuid) {
    && f in c.flags && f in c'.flags && c'.flags[f].strategy == c.flags[f].strategy
    && forall r :: r in c'.rules && c'.rules[r].flag == f ==> r in c.rules && c.rules[r] == c'.rules[r]
  }

  ghost predicate AllNew(c: Tables, rules: set<Uuid>) {
    forall r :: r in rules ==> r !in c.rules
  }

  lemma StageAfterLoss(stage: Stage, c: Tables, c': Tables, f: Uuid)
    requires StageOk(stage, c, f) && OnlyLosesRules(c, c', f)
    ensures StageOk(stage, c', f)
  {
  }

  lemma MatchesAfterLoss(c: Tables, c': Tables, tx: Tx, f: Uuid, more: set<Uuid>)
    requires TxMatches(c, tx) && tx.mutation.UpdateFlag? && TargetOf(tx) == Some(f)
    requires OnlyLosesRules(c, c', f) && AllNew(c, more)
    ensures TxMatches(c', tx.(news := tx.news + more))
  {
    hide GoalOf, RowsMatch;
  }

  lemma FlightAfterLoss(stage: Stage, c: Tables, c': Tables, tx: Tx, f: Uuid, more: set<Uuid>)
    requires FlightOk(stage, c, tx, f) && OnlyLosesRules(c, c', f) && AllNew(c, more)
    ensures FlightOk(stage, c', tx.(news := tx.news + more), f)
  {
    if stage.Before? {
      MatchesAfterLoss(c, c', tx, f, more);
    }
    hide TxMatches, KindBrought, ResolveStrategyForUpdate, GoalOf, InsertsNothing;
  }

  /** What a commit does to the tables and to another transaction. */
  lemma CommitEffect(s: State, k: nat, j: nat)
    requires k in s.txs && s.txs[k].phase.Logged? && j in AfterCommit(s, k).txs
    ensures var s' := AfterCommit(s, k);
      && s'.committed == View(s.committed, s.txs[k].delta)
      && (if j == k then s'.txs[j].phase.Finished?
          else j in s.txs && s'.txs[j] == s.txs[j].(news := s.txs[j].news + InsertedRules(s.txs[k].delta)))
  {
    hide View, InsertedRules;
  }

  lemma CommitKeys(s: State, k: nat)
    requires k in s.txs && s.txs[k].phase.Logged?
    ensures AfterCommit(s, k).txs.Keys == s.txs.Keys
  {
    hide View, InsertedRules;
  }

  lemma InsertsAreNew(c: Tables, issued: set<Uuid>, tx: Tx, x: Uuid)
    requires TxOk(c, issued, tx) && tx.phase == Logged(x)
    ensures AllNew(c, InsertedRules(tx.delta))
  {
    hide Scheduled, Standing, AuditFor;
  }

  /** One of the updates after such a commit. */
  lemma MemberAfterLoss(stage: Stage, s: State, k: nat, x: Uuid, j: nat, change: UpdateFlagInput, f: Uuid)
    requires k in s.txs && s.txs[k].phase == Logged(x) && TxOk(s.committed, s.issued, s.txs[k])
    requires OnlyLosesRules(s.committed, AfterCommit(s, k).committed, f) && MemberOk(stage, s, j, change, f)
    ensures MemberOk(stage, AfterCommit(s, k), j, change, f)
  {
    var s' := AfterCommit(s, k);
    InsertsAreNew(s.committed, s.issued, s.txs[k], x);
    CommitKeys(s, k);
    hide TxOk, AfterCommit, FlightOk, PendingOk, AllNew, InsertedRules;
    if j in s'.txs {
      CommitEffect(s, k, j);
      if TargetOf(s'.txs[j]).Some? {
        FlightAfterLoss(stage, s.committed, s'.committed, s.txs[j], f, InsertedRules(s.txs[k].delta));
      }
    }
  }

  lemma SameImageLosesNothing(c: Tables, c': Tables, f: Uuid)
    requires SameImage(c, c', FeatureFlag, f) && f in c.flags
    ensures OnlyLosesRules(c, c', f)
  {
    forall r | r in c'.rules && c'.rules[r].flag == f
      ensures r in c.rules && c.rules[r] == c'.rules[r]
    {
      assert SameRow(c.rules, c'.rules, r);
    }
  }

  /** The commit of a mutation that is aimed elsewhere. */
  lemma ElsewhereChangesNothing(s: State, k: nat, x: Uuid, g: Contest, f: Uuid)
    requires k in s.txs && s.txs[k].phase == Logged(x) && Good(s)
    requires !AimedAt(s.txs[k].mutation, g.key, g.environment)
    requires FindFlag(s.committed.flags, g.key, g.environment) == Some(f)
    ensures FindFlag(AfterCommit(s, k).committed.flags, g.key, g.environment) == Some(f)
    ensures OnlyLosesRules(s.committed, AfterCommit(s, k).committed, f)
  {
    var c, c' := s.committed, View(s.committed, s.txs[k].delta);
    hide View, Consistent, TxOk, Isolated, SameImage, OnlyLosesRules, FindFlag;
    TxIsOk(s, k);
    FoundElsewhere(c, s.issued, s.txs[k], x, g.key, g.environment);
    CommitKeepsOthers(c, s.issued, s.txs[k], x);
    assert SameImage(c, c', FeatureFlag, f);
    SameImageLosesNothing(c, c', f);
  }

  lemma InStageAfterLoss(stage: Stage, s: State, k: nat, g: Contest, f: Uuid)
    requires k in s.txs && s.txs[k].phase.Logged? && TxOk(s.committed, s.issued, s.txs[k])
    requires InStage(stage, s, g, f)
    requires OnlyLosesRules(s.committed, AfterCommit(s, k).committed, f) && AllCast(AfterCommit(s, k).txs, g)
    requires FindFlag(AfterCommit(s, k).committed.flags, g.key, g.environment) == Some(f)
    ensures InStage(stage, AfterCommit(s, k), g, f)
  {
    hide TxOk, AfterCommit, StageOk, OnlyLosesRules, AllCast, FindFlag, MemberOk;
    StageAfterLoss(stage, s.committed, AfterCommit(s, k).committed, f);
    forall j | 0 <= j < |g.changes|
      ensures MemberOk(stage, AfterCommit(s, k), j, g.changes[j], f)
    {
      MemberAfterLoss(stage, s, k, s.txs[k].phase.target, j, g.changes[j], f);
    }
  }

  // ---------------------------------------------------------------- commits of the updates

  lemma FoundAfterUpdate(c: Tables, issued: set<Uuid>, tx: Tx, f: Uuid, key: string, environment: string)
    requires Consistent(View(c, tx.delta)) && TxOk(c, issued, tx) && tx.phase == Logged(f)
    requires tx.mutation.UpdateFlag? && FlagKeyAimed(tx.mutation) == (key, environment)
    ensures FindFlag(View(c, tx.delta).flags, key, environment) == Some(f)
  {
    hide Consistent, AuditFor;
    FoundByKey(View(c, tx.delta), f, key, environment);
  }

  lemma WrittenStrategy(c: Tables, issued: set<Uuid>, tx: Tx, f: Uuid)
    requires TxOk(c, issued, tx) && tx.phase == Logged(f) && tx.mutation.UpdateFlag?
    ensures f in View(c, tx.delta).flags && f in tx.delta.flags && tx.delta.flags[f].Some?
    ensures View(c, tx.delta).flags[f] == tx.delta.flags[f].value
    ensures GoalOf(tx.delta, f, []) == Some(View(c, tx.delta).flags[f].strategy)
  {
  }

  lemma UniformAfterCommit(c: Tables, issued: set<Uuid>, tx: Tx, f: Uuid, goal: Strategy)
    requires TxOk(c, issued, tx) && tx.phase == Logged(f) && OwnMatch(tx)
    requires StageOk(Uniform(goal), c, f) && FlightOk(Uniform(goal), c, tx, f)
    ensures StageOk(Uniform(goal), View(c, tx.delta), f) && View(c, tx.delta).flags[f].strategy == goal
  {
    WrittenStrategy(c, issued, tx, f);
    UpdateCommitIff(c, issued, tx, f);
    hide TxOk, OwnMatch, View;
  }

  lemma NothingInserted(c: Tables, tx: Tx, f: Uuid)
    requires tx.phase == Logged(f) && InsertsNothing(tx.delta, [])
    ensures InsertedRules(tx.delta) == {}
    ensures forall r :: r in View(c, tx.delta).rules ==>
      r in c.rules && r !in tx.delta.rules && c.rules[r] == View(c, tx.delta).rules[r]
  {
  }

  /** An update without rules that leaves the strategy only takes rules away; one that clears takes all. */
  lemma BeforeAfterCommit(c: Tables, issued: set<Uuid>, tx: Tx, f: Uuid)
    requires TxOk(c, issued, tx) && tx.phase == Logged(f)
    requires StageOk(Before, c, f) && FlightOk(Before, c, tx, f)
    ensures var v := View(c, tx.delta);
      if Clears(tx.mutation.flagChange)
      then f in v.flags && v.flags[f].strategy == NoStrategy && NoRulesOf(v, f)
      else OnlyLosesRules(c, v, f)
  {
    WrittenStrategy(c, issued, tx, f);
    NothingInserted(c, tx, f);
    hide TxOk, View;
  }

  lemma InStageAfterUniform(s: State, k: nat, g: Contest, f: Uuid, goal: Strategy)
    requires k in s.txs && s.txs[k].phase == Logged(f) && TxOk(s.committed, s.issued, s.txs[k])
    requires OwnMatch(s.txs[k]) && FlightOk(Uniform(goal), s.committed, s.txs[k], f)
    requires InStage(Uniform(goal), s, g, f) && AllCast(AfterCommit(s, k).txs, g)
    requires FindFlag(AfterCommit(s, k).committed.flags, g.key, g.environment) == Some(f)
    ensures InStage(Uniform(goal), AfterCommit(s, k), g, f)
  {
    hide TxOk, AfterCommit, StageOk, OwnMatch, AllCast, FindFlag, InsertedRules;
    var s' := AfterCommit(s, k);
    CommitKeys(s, k);
    CommitEffect(s, k, k);
    UniformAfterCommit(s.committed, s.issued, s.txs[k], f, goal);
    forall j | 0 <= j < |g.changes|
      ensures MemberOk(Uniform(goal), s', j, g.changes[j], f)
    {
      assert MemberOk(Uniform(goal), s, j, g.changes[j], f);
      if j in s'.txs {
        CommitEffect(s, k, j);
      }
    }
  }

  lemma EmptyAfterCommit(c: Tables, issued: set<Uuid>, tx: Tx, f: Uuid)
    requires TxOk(c, issued, tx) && tx.phase == Logged(f)
    requires StageOk(Empty, c, f) && FlightOk(Empty, c, tx, f)
    ensures StageOk(Empty, View(c, tx.delta), f)
  {
    WrittenStrategy(c, issued, tx, f);
    NothingInserted(c, tx, f);
    hide TxOk, View;
  }

  lemma InStageAfterEmpty(s: State, k: nat, g: Contest, f: Uuid)
    requires k in s.txs && s.txs[k].phase == Logged(f) && TxOk(s.committed, s.issued, s.txs[k])
    requires FlightOk(Empty, s.committed, s.txs[k], f)
    requires InStage(Empty, s, g, f) && AllCast(AfterCommit(s, k).txs, g)
    requires FindFlag(AfterCommit(s, k).committed.flags, g.key, g.environment) == Some(f)
    ensures InStage(Empty, AfterCommit(s, k), g, f)
  {
    hide TxOk, AfterCommit, StageOk, AllCast, FindFlag, InsertedRules, KindBrought;
    var s' := AfterCommit(s, k);
    CommitKeys(s, k);
    CommitEffect(s, k, k);
    EmptyAfterCommit(s.committed, s.issued, s.txs[k], f);
    forall j | 0 <= j < |g.changes|
      ensures MemberOk(Empty, s', j, g.changes[j], f)
    {
      assert MemberOk(Empty, s, j, g.changes[j], f);
      if j in s'.txs {
        CommitEffect(s, k, j);
      }
    }
  }

  // ---------------------------------------------------------------- an update that clears the flag

  /** Of updates that do not clash on a cleared flag, the others go where the one with rules goes. */
  lemma GoOnceCleared(changes: seq<UpdateFlagInput>, c: nat, i: nat, j: nat)
    requires !ClashOnceCleared(changes) && c < |changes| && i < |changes| && j < |changes| && c != i && c != j
    requires Clears(changes[c]) && KindBrought(changes[i]).Some?
    ensures GoesTo(NoStrategy, changes[j], StrategyOf(KindBrought(changes[i]).value))
    ensures i != j ==> !ClashOneWay(NoStrategy, changes[i], changes[j])
  {
    hide GoesTo, Diverts, KindBrought, Clears;
    if i == j {
      BringerGoes(NoStrategy, changes[i]);
    } else {
      assert !ClashOneWay(NoStrategy, changes[i], changes[j]);
      NotDiverting(NoStrategy, changes[j], StrategyOf(KindBrought(changes[i]).value));
    }
  }

  lemma ClearedIsUniform(c: Tables, f: Uuid, goal: Strategy)
    requires f in c.flags && NoRulesOf(c, f) && c.flags[f].strategy == NoStrategy && goal != NoStrategy
    ensures StageOk(Uniform(goal), c, f) && StageOk(Empty, c, f)
  {
  }

  /** With an update still to come that brings rules, no other one that was accepted before is in flight. */
  lemma NoneInFlight(s: State, g: Contest, f: Uuid, k: nat, i: nat, j: nat)
    requires InStage(Before, s, g, f) && !ClashOnceCleared(g.changes)
    requires k < |g.changes| && i < |g.changes| && j < |g.changes| && k != i && k != j
    requires Clears(g.changes[k]) && KindBrought(g.changes[i]).Some? && Undecided(s.txs, i)
    ensures j in s.txs ==> TargetOf(s.txs[j]).None?
  {
    hide ClashOnceCleared, Clears, KindBrought, StageOk, FindFlag, InsertsNothing, GoalOf, TxMatches, ClashOneWay;
    assert MemberOk(Before, s, i, g.changes[i], f) && MemberOk(Before, s, j, g.changes[j], f);
    if j in s.txs && TargetOf(s.txs[j]).Some? {
      var current := s.committed.flags[f].strategy;
      assert TakesWithoutRules(current, s.txs[j], f) && g.changes[j] == s.txs[j].mutation.flagChange;
      GoOnceCleared(g.changes, k, i, j);
      BeforeHasStrategy(s.committed, f);
      TakenWithoutRulesDiverts(current, g.changes[j], g.changes[i]);
    }
  }

  lemma BeforeHasStrategy(c: Tables, f: Uuid)
    requires StageOk(Before, c, f)
    ensures f in c.flags && c.flags[f].strategy != NoStrategy
  {
  }

  /** One of the updates after the commit of another that clears the flag. */
  lemma MemberOnceCleared(stage: Stage, s: State, k: nat, j: nat, change: UpdateFlagInput, f: Uuid)
    requires k in s.txs && s.txs[k].phase == Logged(f)
    requires f in AfterCommit(s, k).committed.flags && AfterCommit(s, k).committed.flags[f].strategy == NoStrategy
    requires j != k && Undecided(s.txs, j) ==> PendingOk(stage, NoStrategy, change)
    requires j != k && j in s.txs && TargetOf(s.txs[j]).Some? ==>
      !stage.Before? && FlightOk(stage, s.committed, s.txs[j], f)
    ensures MemberOk(stage, AfterCommit(s, k), j, change, f)
  {
    var s' := AfterCommit(s, k);
    CommitKeys(s, k);
    CommitEffect(s, k, k);
    hide AfterCommit, InsertedRules, KindBrought, GoesTo, InsertsNothing, GoalOf;
    if j in s'.txs {
      CommitEffect(s, k, j);
    }
  }

  lemma UniformOnceCleared(s: State, k: nat, g: Contest, f: Uuid, i: nat, j: nat)
    requires k in s.txs && s.txs[k].phase == Logged(f) && InStage(Before, s, g, f)
    requires f in AfterCommit(s, k).committed.flags && AfterCommit(s, k).committed.flags[f].strategy == NoStrategy
    requires k < |g.changes| && j < |g.changes| && Clears(g.changes[k]) && !ClashOnceCleared(g.changes)
    requires i < |g.changes| && Undecided(s.txs, i) && KindBrought(g.changes[i]).Some?
    ensures MemberOk(Uniform(StrategyOf(KindBrought(g.changes[i]).value)), AfterCommit(s, k), j, g.changes[j], f)
  {
    var goal := StrategyOf(KindBrought(g.changes[i]).value);
    hide AfterCommit, KindBrought, Clears, ClashOnceCleared, InStage, FlightOk, GoesTo, ClashOneWay;
    if j != k {
      GoOnceCleared(g.changes, k, i, j);
      NoneInFlight(s, g, f, k, i, j);
    }
    MemberOnceCleared(Uniform(goal), s, k, j, g.changes[j], f);
  }

  lemma EmptyOnceCleared(s: State, k: nat, g: Contest, f: Uuid, j: nat)
    requires k in s.txs && s.txs[k].phase == Logged(f) && InStage(Before, s, g, f) && j < |g.changes|
    requires f in AfterCommit(s, k).committed.flags && AfterCommit(s, k).committed.flags[f].strategy == NoStrategy
    requires Undecided(s.txs, j) ==> KindBrought(g.changes[j]).None?
    ensures MemberOk(Empty, AfterCommit(s, k), j, g.changes[j], f)
  {
    hide AfterCommit, KindBrought, StageOk, FindFlag, AllCast, InsertsNothing, GoalOf, TxMatches,
      ResolveStrategyForUpdate;
    assert MemberOk(Before, s, j, g.changes[j], f);
    MemberOnceCleared(Empty, s, k, j, g.changes[j], f);
  }

  lemma InStageAfterClearing(s: State, k: nat, g: Contest, f: Uuid) returns (stage: Stage)
    requires k in s.txs && s.txs[k].phase == Logged(f) && InStage(Before, s, g, f)
    requires k < |g.changes| && Clears(g.changes[k]) && !ClashOnceCleared(g.changes)
    requires var v := AfterCommit(s, k).committed;
      && f in v.flags && v.flags[f].strategy == NoStrategy && NoRulesOf(v, f)
      && FindFlag(v.flags, g.key, g.environment) == Some(f)
    requires AllCast(AfterCommit(s, k).txs, g)
    ensures InStage(stage, AfterCommit(s, k), g, f)
  {
    hide AfterCommit, KindBrought, Clears, ClashOnceCleared, FindFlag, AllCast, NoRulesOf, StageOk, MemberOk;
    if i :| 0 <= i < |g.changes| && Undecided(s.txs, i) && KindBrought(g.changes[i]).Some? {
      stage := Uniform(StrategyOf(KindBrought(g.changes[i]).value));
      ClearedIsUniform(AfterCommit(s, k).committed, f, stage.goal);
      forall j | 0 <= j < |g.changes|
        ensures MemberOk(stage, AfterCommit(s, k), j, g.changes[j], f)
      {
        UniformOnceCleared(s, k, g, f, i, j);
      }
    } else {
      stage := Empty;
      ClearedIsUniform(AfterCommit(s, k).committed, f, PercentageStrategy);
      forall j | 0 <= j < |g.changes|
        ensures MemberOk(stage, AfterCommit(s, k), j, g.changes[j], f)
      {
        EmptyOnceCleared(s, k, g, f, j);
      }
    }
  }

  // ---------------------------------------------------------------- whole runs

  lemma InStageAfterUpdate(stage: Stage, s: State, k: nat, g: Contest, f: Uuid) returns (next: Stage)
    requires k in s.txs && s.txs[k].phase.Logged? && k < |g.changes| && Good(s) && OwnMatches(s)
    requires InStage(stage, s, g, f) && OfOneFlag(g) && !ClashOnceCleared(g.changes)
    requires AllCast(AfterCommit(s, k).txs, g)
    ensures InStage(next, AfterCommit(s, k), g, f)
  {
    hide Good, OwnMatches, TxOk, OwnMatch, AfterCommit, StageOk, FindFlag, ClashOnceCleared, Consistent, View,
      OnlyLosesRules, NoRulesOf, Clears, TakesWithoutRules, TxMatches, InsertsNothing, GoalOf;
    TxParts(s, k);
    GoodViews(s, k);
    assert MemberOk(stage, s, k, g.changes[k], f);
    var c, tx := s.committed, s.txs[k];
    CommitKeys(s, k);
    CommitEffect(s, k, k);
    FoundAfterUpdate(c, s.issued, tx, f, g.key, g.environment);
    next := stage;
    match stage
    case Uniform(goal) => InStageAfterUniform(s, k, g, f, goal);
    case Empty => InStageAfterEmpty(s, k, g, f);
    case Before =>
      BeforeAfterCommit(c, s.issued, tx, f);
      if Clears(g.changes[k]) {
        next := InStageAfterClearing(s, k, g, f);
      } else {
        InStageAfterLoss(Before, s, k, g, f);
      }
  }

  lemma GoodViews(s: State, k: nat)
    requires Good(s) && k in s.txs
    ensures Consistent(s.committed) && Consistent(View(s.committed, s.txs[k].delta))
  {
  }

  lemma InStageAfterStep(stage: Stage, s: State, step: Step, g: Contest, f: Uuid) returns (next: Stage)
    requires Enabled(s, step) && Admits(g, step) && OfOneFlag(g) && !ClashOnceCleared(g.changes)
    requires Good(s) && OwnMatches(s) && InStage(stage, s, g, f)
    ensures InStage(next, After(s, step), g, f)
  {
    hide Good, OwnMatches, InStage, ClashOnceCleared;
    next := stage;
    if step.Commit? {
      var k := step.k;
      InStageParts(stage, s, g, f);
      CastKept(s, step, g);
      CommitsOwn(s, step);
      CommitIsAfter(s, k);
      hide After, Enabled, AfterCommit, FindFlag, OnlyLosesRules, AllCast;
      if k < |g.changes| {
        next := InStageAfterUpdate(stage, s, k, g, f);
      } else {
        CastElsewhere(s.txs, g, k);
        ElsewhereChangesNothing(s, k, s.txs[k].phase.target, g, f);
        TxIsOk(s, k);
        InStageAfterLoss(stage, s, k, g, f);
      }
    } else {
      InStageAfterOther(stage, s, step, g, f);
    }
  }

  lemma InStageParts(stage: Stage, s: State, g: Contest, f: Uuid)
    requires InStage(stage, s, g, f)
    ensures AllCast(s.txs, g) && FindFlag(s.committed.flags, g.key, g.environment) == Some(f)
    ensures FlagMatched(s.committed, f)
  {
    hide AllCast, FindFlag, FlagMatched, MembersOk;
    StageIsMatched(stage, s.committed, f);
  }

  lemma CommitIsAfter(s: State, k: nat)
    requires Enabled(s, Commit(k))
    ensures k in s.txs && s.txs[k].phase.Logged? && After(s, Commit(k)) == AfterCommit(s, k)
  {
    hide AfterCommit;
  }

  lemma CastElsewhere(txs: map<nat, Tx>, g: Contest, k: nat)
    requires AllCast(txs, g) && k in txs && k >= |g.changes|
    ensures !AimedAt(txs[k].mutation, g.key, g.environment)
  {
  }

  /** Updates that do not clash keep their flag's rules matched in every run, whatever else runs. */
  lemma {:induction false} NoClashKeepsMatch(s: State, steps: seq<Step>, g: Contest, f: Uuid) returns (stage: Stage)
    requires Initial(s) && Legal(s, steps) && RunOf(g, steps) && OfOneFlag(g)
    requires FindFlag(s.committed.flags, g.key, g.environment) == Some(f) && FlagMatched(s.committed, f)
    requires !ClashAmong(s.committed.flags[f].strategy, g.changes)
    ensures InStage(stage, Final(s, steps), g, f) && FlagMatched(Final(s, steps).committed, f)
    decreases |steps|
  {
    hide ClashPair, ClashOnceCleared, FlagMatched, FindFlag, InStage, Good, OwnMatches, After, Enabled, OfOneFlag;
    if steps == [] {
      stage := StartsInStage(s, g, f);
    } else {
      var init, step := steps[..|steps| - 1], steps[|steps| - 1];
      assert RunOf(g, init) && Admits(g, step);
      stage := NoClashKeepsMatch(s, init, g, f);
      GoodAlways(s, init);
      OwnAlways(s, init);
      stage := InStageAfterStep(stage, Final(s, init), step, g, f);
    }
    InStageParts(stage, Final(s, steps), g, f);
  }
}
