/**
 Runs in which one mutation is aimed at a flag and any number of others at other flags: the
 flag is as at the start until the mutation commits, and from then on as its commit leaves it.
 */
module AmongOthers {
  import opened Wrappers
  import opened Schema
  import opened Statements
  import opened FlagRules
  import opened Protocol
  import opened Transactions
  import opened Interleaving
  import opened Isolation
  import opened Reachable
  import opened AuditTrail
  import opened RolloutHistory
  import opened StrategyMatch
  import opened TxSteps
  import opened PlannedWrites

  // ---------------------------------------------------------------- runs of one mutation among others

  /** Transaction 0 carries out m, the others anything that is aimed at another flag. */
  predicate CastAlongside(k: nat, does: Mutation, m: Mutation, key: string, environment: string) {
    if k == 0 then does == m else !AimedAt(does, key, environment)
  }

  predicate Alongside(step: Step, m: Mutation, key: string, environment: string) {
    step.Open? ==> CastAlongside(step.k, step.mutation, m, key, environment)
  }

  ghost predicate RunAlongside(steps: seq<Step>, m: Mutation, key: string, environment: string) {
    forall i :: 0 <= i < |steps| ==> Alongside(steps[i], m, key, environment)
  }

  ghost predicate AllAlongside(txs: map<nat, Tx>, m: Mutation, key: string, environment: string) {
    forall k :: k in txs ==> CastAlongside(k, txs[k].mutation, m, key, environment)
  }

  lemma CastKept(s: State, step: Step, m: Mutation, key: string, environment: string)
    requires Enabled(s, step) && AllAlongside(s.txs, m, key, environment) && Alongside(step, m, key, environment)
    ensures AllAlongside(After(s, step).txs, m, key, environment)
  {
    hide Enabled, After, CastAlongside;
    forall k | k in After(s, step).txs
      ensures CastAlongside(k, After(s, step).txs[k].mutation, m, key, environment)
    {
      if k in s.txs {
        TxsKept(s, step, k);
      } else {
        TxsOpened(s, step, k);
      }
    }
  }

  /** What the mutation is to do to the row it finds. */
  function PlanOf(c: Tables, m: Mutation): seq<Statement> {
    match Decide(c, m)
    case Success(OnRow(_, todo)) => todo
    case _ => []
  }

  /** The mutation changes the flag it finds, flag f. */
  ghost predicate Changes(c: Tables, m: Mutation, f: Uuid) {
    (m.UpdateFlag? || m.DeleteFlag?) && PlanOf(c, m) != [] && Decide(c, m) == Success(OnRow(f, PlanOf(c, m)))
  }

  /** The transaction follows its plan. */
  ghost predicate Follows(c: Tables, tx: Tx, f: Uuid) {
    var full := PlanOf(c, tx.mutation);
    match tx.phase
    case Inserting(_) => false
    case Running(x, todo) =>
      && x == f && Changes(c, tx.mutation, f) && |todo| <= |full|
      && todo == full[|full| - |todo|..] && Along(c, tx.delta, f, full, |full| - |todo|)
    case Logged(x) => x == f && Changes(c, tx.mutation, f) && Along(c, tx.delta, f, full, |full|)
    case _ => true
  }

  /** The mutation finds flag f under its key. */
  ghost predicate Finds(c: Tables, m: Mutation, f: Uuid) {
    EntityOf(m) == FeatureFlag && FindFlag(c.flags, FlagKeyAimed(m).0, FlagKeyAimed(m).1) == Some(f)
  }

  lemma ReadFollows(s: State, tx: Tx, f: Uuid)
    requires Finds(s.committed, tx.mutation, f) && tx.delta == NO_WRITES
    ensures Follows(s.committed, AfterRead(s, tx), f)
  {
    hide FindFlag, EditedFlag, RulesTodo, Along;
    var c, m := s.committed, tx.mutation;
    if Decide(c, m).Success? {
      var full := Decide(c, m).value.todo;
      PlanShaped(c, m, f, full);
      NothingAlong(c, f, full);
      assert full[|full| - |full|..] == full;
    }
  }

  lemma ChangesShaped(c: Tables, m: Mutation, f: Uuid)
    requires Changes(c, m, f)
    ensures Shaped(f, PlanOf(c, m))
  {
    hide Decide;
    PlanShaped(c, m, f, PlanOf(c, m));
  }

  lemma StatementFollows(c: Tables, issued: set<Uuid>, tx: Tx, f: Uuid, id: Uuid, missed: set<Uuid>)
    requires Waiting(tx) && Follows(c, tx, f) && WrittenIds(tx.delta) <= issued && IdsOf(c) <= issued
    requires (Mints(NextStatement(tx)) ==> id !in issued) && NewsElsewhere(c, missed, f)
    ensures Follows(c, AfterStatement(c, tx, id, missed), f)
  {
    hide Changes, Along, Exec, View, Record, IdsOf, WrittenIds, Mints, PlanOf, Shaped, NewsElsewhere;
    var stmt, todo, full := NextStatement(tx), tx.phase.todo, PlanOf(c, tx.mutation);
    ChangesShaped(c, tx.mutation, f);
    if Exec(View(c, tx.delta), stmt, id).Applied? {
      SuffixNext(full, todo);
      StaysAlong(c, issued, tx.delta, f, full, |full| - |todo|, id, missed);
    }
  }

  lemma LogFollows(c: Tables, tx: Tx, f: Uuid)
    requires Follows(c, tx, f) && tx.phase.Running? && tx.phase.todo == []
    ensures Follows(c, AfterLog(tx, tx.phase.target), f)
  {
    hide Changes, PlanOf;
  }

  lemma IdleFollows(c: Tables, tx: Tx, f: Uuid)
    requires TargetOf(tx).None? && !tx.phase.Inserting?
    ensures Follows(c, tx, f)
  {
  }

  lemma SamePlan(c: Tables, c': Tables, m: Mutation, f: Uuid)
    requires Finds(c, m, f) && Finds(c', m, f) && c'.flags[f] == c.flags[f]
    ensures Decide(c', m) == Decide(c, m)
  {
    hide FindFlag, EditedFlag, RulesTodo;
  }

  lemma FollowsSameFlag(c: Tables, c': Tables, tx: Tx, f: Uuid, news: set<Uuid>)
    requires Finds(c, tx.mutation, f) && Finds(c', tx.mutation, f)
    requires Follows(c, tx, f) && SameImage(c, c', FeatureFlag, f)
    ensures Follows(c', tx.(news := news), f)
  {
    hide FindFlag, SameRules, Decide, Along;
    SamePlan(c, c', tx.mutation, f);
    assert PlanOf(c', tx.mutation) == PlanOf(c, tx.mutation);
    var full := PlanOf(c, tx.mutation);
    hide PlanOf;
    if tx.phase.Running? {
      AlongSameRules(c, c', tx.delta, f, full, |full| - |tx.phase.todo|);
    } else if tx.phase.Logged? {
      AlongSameRules(c, c', tx.delta, f, full, |full|);
    }
  }

  // ---------------------------------------------------------------- the invariant

  /** Flag f has been there, so no transaction creates it. */
  ghost predicate NobodyCreates(s: State, f: Uuid) {
    && f in s.issued
    && forall k :: k in s.txs && s.txs[k].mutation.CreateFlag? ==> TargetOf(s.txs[k]) != Some(f)
  }

  /** While m has not committed: the flag as at the start, and m on its way. */
  ghost predicate OnTheWay(s: State, c0: Tables, f: Uuid) {
    && SameImage(c0, s.committed, FeatureFlag, f)
    && (0 in s.txs ==> NewsElsewhere(s.committed, s.txs[0].news, f) && Follows(s.committed, s.txs[0], f))
  }

  /** What holds in every state of such a run. */
  ghost predicate Steady(s: State, c0: Tables, m: Mutation, key: string, environment: string) {
    var found := FindFlag(c0.flags, key, environment);
    && AllAlongside(s.txs, m, key, environment)
    && (0 !in s.order ==>
          && FindFlag(s.committed.flags, key, environment) == found
          && (found.Some? ==> OnTheWay(s, c0, found.value)))
    && (0 in s.order ==>
          0 in s.txs && s.txs[0].phase.Finished? && (found.Some? ==> Settled(c0, s.committed, m, found.value)))
    && (found.Some? ==> NobodyCreates(s, found.value))
  }

  lemma CreatedAfterStatement(c: Tables, tx: Tx, id: Uuid, missed: set<Uuid>)
    requires Waiting(tx)
    ensures var tx' := AfterStatement(c, tx, id, missed);
      && tx'.mutation == tx.mutation
      && (TargetOf(tx').Some? ==> TargetOf(tx') == TargetOf(tx) || (tx.phase.Inserting? && TargetOf(tx') == Some(id)))
  {
    hide Exec, View, Record;
  }

  lemma CreatesInsert(s: State, tx: Tx)
    requires tx.mutation.CreateFlag?
    ensures AfterRead(s, tx).mutation == tx.mutation && TargetOf(AfterRead(s, tx)).None?
  {
    DecideCreatesFlag(s.committed, tx.mutation);
    hide Decide;
  }

  lemma LogKeepsTarget(tx: Tx)
    requires tx.phase.Running?
    ensures var tx' := AfterLog(tx, tx.phase.target);
      tx'.mutation == tx.mutation && (TargetOf(tx').Some? ==> TargetOf(tx') == TargetOf(tx))
  {
  }

  lemma InsertsMint(c: Tables, issued: set<Uuid>, tx: Tx)
    requires TxOk(c, issued, tx) && tx.phase.Inserting?
    ensures Mints(tx.phase.insert)
  {
  }

  lemma StillNobodyCreates(s: State, step: Step, f: Uuid, k: nat)
    requires Enabled(s, step) && !step.Commit? && Good(s) && NobodyCreates(s, f)
    requires k in After(s, step).txs && After(s, step).txs[k].mutation.CreateFlag?
    ensures TargetOf(After(s, step).txs[k]) != Some(f)
  {
    TxAfterOther(s, step, k);
    hide Good, After, AfterStatement, AfterRead, AfterLog, Enabled, TxOk, Mints;
    var tx' := After(s, step).txs[k];
    if k in s.txs && TargetOf(tx').Some? && tx' != s.txs[k] {
      TxsKept(s, step, k);
      TxIsOk(s, k);
      EnabledNeeds(s, step);
      if step == Read(k) {
        CreatesInsert(s, s.txs[k]);
      } else if step == Log(k) {
        LogKeepsTarget(s.txs[k]);
      } else {
        CreatedAfterStatement(s.committed, s.txs[k], step.id, step.missed);
        if s.txs[k].phase.Inserting? {
          InsertsMint(s.committed, s.issued, s.txs[k]);
        }
      }
    }
  }

  // ---------------------------------------------------------------- steps that commit nothing

  lemma NewsFewer(s: State, step: Step, k: nat)
    requires Enabled(s, step) && !step.Commit? && k in After(s, step).txs
    ensures After(s, step).txs[k].news <= if k in s.txs then s.txs[k].news else {}
  {
    hide Decide, Admit, Upsert, Exec, View, Record, Blocked, Mints;
  }

  lemma NewsOfFewer(c: Tables, news: set<Uuid>, fewer: set<Uuid>, f: Uuid)
    requires NewsElsewhere(c, news, f) && fewer <= news
    ensures NewsElsewhere(c, fewer, f)
  {
  }

  lemma TxIsSound(s: State, k: nat)
    requires Good(s) && k in s.txs
    ensures WrittenIds(s.txs[k].delta) <= s.issued && IdsOf(s.committed) <= s.issued
    ensures s.txs[k].phase.Opened? ==> s.txs[k].delta == NO_WRITES
  {
    assert TxOk(s.committed, s.issued, s.txs[k]);
  }

  lemma FollowsAfterOther(s: State, step: Step, f: Uuid)
    requires Enabled(s, step) && !step.Commit? && 0 in After(s, step).txs && Good(s)
    requires 0 in s.txs ==>
      && Finds(s.committed, s.txs[0].mutation, f)
      && NewsElsewhere(s.committed, s.txs[0].news, f) && Follows(s.committed, s.txs[0], f)
    ensures Follows(s.committed, After(s, step).txs[0], f)
  {
    TxAfterOther(s, step, 0);
    EnabledNeeds(s, step);
    hide Good, Follows, After, Enabled, Finds, IdsOf, WrittenIds, NewsElsewhere, AfterStatement, AfterRead, AfterLog,
      Mints;
    var tx' := After(s, step).txs[0];
    if TargetOf(tx').None? && !tx'.phase.Inserting? {
      IdleFollows(s.committed, tx', f);
    } else if tx' != s.txs[0] {
      TxIsSound(s, 0);
      if step == Read(0) {
        ReadFollows(s, s.txs[0], f);
      } else if step == Log(0) {
        LogFollows(s.committed, s.txs[0], f);
      } else {
        NewsOfFewer(s.committed, s.txs[0].news, step.missed, f);
        StatementFollows(s.committed, s.issued, s.txs[0], f, step.id, step.missed);
      }
    }
  }

  lemma FindsIt(c: Tables, txs: map<nat, Tx>, m: Mutation, key: string, environment: string, f: Uuid)
    requires AllAlongside(txs, m, key, environment) && AimedAt(m, key, environment)
    requires FindFlag(c.flags, key, environment) == Some(f)
    ensures 0 in txs ==> txs[0].mutation == m && Finds(c, txs[0].mutation, f)
  {
  }

  /** The mutation's transaction after such a step. */
  lemma TxOnTheWay(s: State, step: Step, m: Mutation, key: string, environment: string, f: Uuid)
    requires Enabled(s, step) && !step.Commit? && Good(s) && 0 in After(s, step).txs
    requires AllAlongside(s.txs, m, key, environment) && AimedAt(m, key, environment)
    requires FindFlag(s.committed.flags, key, environment) == Some(f)
    requires 0 in s.txs ==> NewsElsewhere(s.committed, s.txs[0].news, f) && Follows(s.committed, s.txs[0], f)
    ensures NewsElsewhere(s.committed, After(s, step).txs[0].news, f)
    ensures Follows(s.committed, After(s, step).txs[0], f)
  {
    hide Good, After, Enabled, Follows, NewsElsewhere, FindFlag, AimedAt, AllAlongside, Finds;
    NewsFewer(s, step, 0);
    FindsIt(s.committed, s.txs, m, key, environment, f);
    FollowsAfterOther(s, step, f);
    NoNews(s.committed, f);
    NewsOfFewer(s.committed, if 0 in s.txs then s.txs[0].news else {}, After(s, step).txs[0].news, f);
  }

  lemma TxIgnoresAssignments(c: Tables, c': Tables, tx: Tx, f: Uuid)
    requires Finds(c, tx.mutation, f) && c'.flags == c.flags && c'.rules == c.rules
    requires NewsElsewhere(c, tx.news, f) && Follows(c, tx, f)
    ensures NewsElsewhere(c', tx.news, f) && Follows(c', tx, f)
  {
    SameImageSelf(c, c', f);
    hide Follows, SameImage;
    FollowsSameFlag(c, c', tx, f, tx.news);
  }

  lemma OnTheWayAfterOther(
    s: State, step: Step, c0: Tables, m: Mutation, key: string, environment: string, f: Uuid)
    requires Enabled(s, step) && !step.Commit? && Good(s)
    requires AllAlongside(s.txs, m, key, environment) && AllAlongside(After(s, step).txs, m, key, environment)
    requires AimedAt(m, key, environment) && FindFlag(s.committed.flags, key, environment) == Some(f)
    requires OnTheWay(s, c0, f)
    ensures OnTheWay(After(s, step), c0, f)
  {
    hide Good, After, Enabled, Follows, NewsElsewhere, SameImage, FindFlag, AimedAt, AllAlongside, Finds;
    var s' := After(s, step);
    OnlyAssignmentsChange(s, step);
    SameImageSelf(s.committed, s'.committed, f);
    ImageChain(c0, s.committed, s'.committed, f);
    if 0 in s'.txs {
      TxOnTheWay(s, step, m, key, environment, f);
      FindsIt(s.committed, s'.txs, m, key, environment, f);
      TxIgnoresAssignments(s.committed, s'.committed, s'.txs[0], f);
    }
  }

  lemma NoNews(c: Tables, f: Uuid)
    ensures NewsElsewhere(c, {}, f)
  {
  }

  lemma OnlyAssignmentsChange(s: State, step: Step)
    requires Enabled(s, step) && !step.Commit?
    ensures After(s, step).committed.flags == s.committed.flags && After(s, step).committed.rules == s.committed.rules
  {
    OtherStepsWriteNothing(s, step);
    hide After;
  }

  lemma IssuedGrows(s: State, step: Step)
    requires Enabled(s, step)
    ensures s.issued <= After(s, step).issued
  {
    hide View, Exec, Decide, Admit, Upsert, Record, Blocked, Mints, InsertedRules;
  }

  lemma SteadyAfterOther(s: State, step: Step, c0: Tables, m: Mutation, key: string, environment: string)
    requires Enabled(s, step) && !step.Commit? && Alongside(step, m, key, environment)
    requires Good(s) && AimedAt(m, key, environment) && Steady(s, c0, m, key, environment)
    ensures Steady(After(s, step), c0, m, key, environment)
  {
    hide Good, Follows, Settled, After, Enabled, FindFlag, AimedAt, AllAlongside, OnTheWay, Alongside, SameImage,
      TargetOf;
    var s', found := After(s, step), FindFlag(c0.flags, key, environment);
    OrderKept(s, step);
    OnlyAssignmentsChange(s, step);
    IssuedGrows(s, step);
    CastKept(s, step, m, key, environment);
    if 0 in s.order {
      TxsKept(s, step, 0);
    }
    if found.Some? {
      var f := found.value;
      if 0 in s.order {
        SameImageSelf(c0, c0, f);
        SameImageSelf(s.committed, s'.committed, f);
        SettledSameFlag(c0, s.committed, c0, s'.committed, m, f);
      } else {
        OnTheWayAfterOther(s, step, c0, m, key, environment, f);
      }
      forall k | k in s'.txs && s'.txs[k].mutation.CreateFlag?
        ensures TargetOf(s'.txs[k]) != Some(f)
      {
        StillNobodyCreates(s, step, f, k);
      }
    }
  }

  // ---------------------------------------------------------------- commits

  lemma FollowedToCommit(c: Tables, tx: Tx, f: Uuid)
    requires Follows(c, tx, f) && tx.phase.Logged?
    ensures Changes(c, tx.mutation, f) && Along(c, tx.delta, f, PlanOf(c, tx.mutation), |PlanOf(c, tx.mutation)|)
  {
  }

  /** What a commit leaves of the other transactions. */
  lemma TxsAfterCommit(s: State, k: nat)
    requires k in s.txs && s.txs[k].phase.Logged?
    ensures var s' := AfterCommit(s, k);
      && s'.committed == View(s.committed, s.txs[k].delta) && s'.order == s.order + [k] && s'.issued == s.issued
      && s'.txs.Keys == s.txs.Keys && s'.txs[k].phase.Finished?
      && (forall j :: j in s.txs ==> s'.txs[j].mutation == s.txs[j].mutation)
      && forall j :: j in s.txs && j != k ==>
           s'.txs[j] == s.txs[j].(news := s.txs[j].news + InsertedRules(s.txs[k].delta))
  {
    hide View, InsertedRules;
  }

  lemma NobodyCreatesAfterCommit(s: State, k: nat, f: Uuid)
    requires k in s.txs && s.txs[k].phase.Logged? && NobodyCreates(s, f)
    ensures NobodyCreates(AfterCommit(s, k), f)
  {
    TxsAfterCommit(s, k);
    hide AfterCommit, InsertedRules;
    var s' := AfterCommit(s, k);
    forall j | j in s'.txs && s'.txs[j].mutation.CreateFlag?
      ensures TargetOf(s'.txs[j]) != Some(f)
    {
      assert j != k ==> TargetOf(s'.txs[j]) == TargetOf(s.txs[j]);
    }
  }

  /** The commit of the mutation itself. */
  lemma SteadyAfterOwnCommit(s: State, c0: Tables, m: Mutation, key: string, environment: string)
    requires 0 in s.txs && s.txs[0].phase.Logged? && AimedAt(m, key, environment)
    requires Steady(s, c0, m, key, environment) && AllAlongside(AfterCommit(s, 0).txs, m, key, environment)
    ensures Steady(AfterCommit(s, 0), c0, m, key, environment)
  {
    hide Follows, Settled, View, Finds, AllAlongside, FindFlag, AimedAt, AfterCommit, NewsElsewhere, SameImage,
      NobodyCreates, Changes, Along, PlanOf, InsertedRules;
    var tx, c, found := s.txs[0], s.committed, FindFlag(c0.flags, key, environment);
    TxsAfterCommit(s, 0);
    assert 0 in s.order + [0];
    if found.Some? {
      var f := found.value;
      FindsIt(c, s.txs, m, key, environment, f);
      FollowedToCommit(c, tx, f);
      CommitsItsPlan(c, tx.delta, m, f);
      SameImageSelf(View(c, tx.delta), View(c, tx.delta), f);
      SameImageSelf(c, c, f);
      ImageChain(c0, c, c, f);
      SettledSameFlag(c, View(c, tx.delta), c0, View(c, tx.delta), m, f);
      NobodyCreatesAfterCommit(s, 0, f);
    }
  }

  lemma CommitsItsPlan(c: Tables, d: Delta, m: Mutation, f: Uuid)
    requires Changes(c, m, f) && Along(c, d, f, PlanOf(c, m), |PlanOf(c, m)|)
    ensures Settled(c, View(c, d), m, f)
  {
    hide Along, View, Settled, Decide, PlanOf;
    CommitSettles(c, d, m, f, PlanOf(c, m));
  }

  /** A mutation that is aimed elsewhere works on another flag, even when f is gone. */
  lemma NotItsTarget(c: Tables, issued: set<Uuid>, tx: Tx, x: Uuid, f: Uuid, key: string, environment: string)
    requires TxOk(c, issued, tx) && tx.phase == Logged(x) && !AimedAt(tx.mutation, key, environment)
    requires f in c.flags ==> FlagKeyOf(c.flags[f]) == (key, environment)
    requires tx.mutation.CreateFlag? ==> x != f
    ensures SameImage(c, View(c, tx.delta), FeatureFlag, f)
    ensures forall r :: r in InsertedRules(tx.delta) && r in View(c, tx.delta).rules ==>
      View(c, tx.delta).rules[r].flag != f
  {
    WorksElsewhere(c, issued, tx, x, f, key, environment);
    hide TxOk, View, SameImage, InsertedRules, AimedAt;
    CommitKeepsOthers(c, issued, tx, x);
    InsertedRulesOnTarget(c, issued, tx, x);
    assert SameImage(c, View(c, tx.delta), FeatureFlag, f);
  }

  lemma WorksElsewhere(c: Tables, issued: set<Uuid>, tx: Tx, x: Uuid, f: Uuid, key: string, environment: string)
    requires TxOk(c, issued, tx) && tx.phase == Logged(x) && !AimedAt(tx.mutation, key, environment)
    requires f in c.flags ==> FlagKeyOf(c.flags[f]) == (key, environment)
    requires tx.mutation.CreateFlag? ==> x != f
    ensures EntityOf(tx.mutation) == FeatureFlag ==> x != f
  {
    hide Touches, AuditFor;
    assert Standing(c, tx.mutation, tx.delta, x);
  }

  lemma KeyOfSettled(c0: Tables, c: Tables, m: Mutation, f: Uuid, key: string, environment: string)
    requires FindFlag(c0.flags, key, environment) == Some(f) && Settled(c0, c, m, f)
    ensures f in c.flags ==> FlagKeyOf(c.flags[f]) == (key, environment)
  {
    hide ResolveStrategyForUpdate, HasExactly, SameRules;
  }

  /** The commit of another mutation changes nothing of the flag. */
  lemma FlagAfterOthersCommit(
    s: State, k: nat, c0: Tables, m: Mutation, key: string, environment: string, f: Uuid)
    requires k in s.txs && k != 0 && s.txs[k].phase.Logged? && Good(s)
    requires Steady(s, c0, m, key, environment) && FindFlag(c0.flags, key, environment) == Some(f)
    ensures SameImage(s.committed, AfterCommit(s, k).committed, FeatureFlag, f)
    ensures NewsElsewhere(AfterCommit(s, k).committed, InsertedRules(s.txs[k].delta), f)
  {
    hide Good, TxOk, View, SameImage, InsertedRules, AimedAt, Settled, FindFlag, AfterCommit, OnTheWay;
    var x := s.txs[k].phase.target;
    TxIsOk(s, k);
    TxsAfterCommit(s, k);
    if 0 in s.order {
      KeyOfSettled(c0, s.committed, m, f, key, environment);
    }
    assert TargetOf(s.txs[k]) == Some(x);
    NotItsTarget(s.committed, s.issued, s.txs[k], x, f, key, environment);
  }

  lemma OnTheWayAfterOthersCommit(
    s: State, k: nat, c0: Tables, m: Mutation, key: string, environment: string, f: Uuid)
    requires k in s.txs && k != 0 && s.txs[k].phase.Logged? && OnTheWay(s, c0, f)
    requires AllAlongside(s.txs, m, key, environment) && AimedAt(m, key, environment)
    requires FindFlag(s.committed.flags, key, environment) == Some(f)
    requires FindFlag(AfterCommit(s, k).committed.flags, key, environment) == Some(f)
    requires SameImage(s.committed, AfterCommit(s, k).committed, FeatureFlag, f)
    requires NewsElsewhere(AfterCommit(s, k).committed, InsertedRules(s.txs[k].delta), f)
    ensures OnTheWay(AfterCommit(s, k), c0, f)
  {
    hide SameImage, InsertedRules, AimedAt, FindFlag, AfterCommit, Follows, NewsElsewhere, AllAlongside, Finds, View;
    var c, c' := s.committed, AfterCommit(s, k).committed;
    TxsAfterCommit(s, k);
    ImageChain(c0, c, c', f);
    if 0 in s.txs {
      var more := InsertedRules(s.txs[k].delta);
      FindsIt(c, s.txs, m, key, environment, f);
      FindsIt(c', s.txs, m, key, environment, f);
      FollowsSameFlag(c, c', s.txs[0], f, s.txs[0].news + more);
      NewsSameFlag(c, c', s.txs[0].news, more, f);
    }
  }

  lemma SteadyAfterOthersCommit(s: State, k: nat, c0: Tables, m: Mutation, key: string, environment: string)
    requires k in s.txs && k != 0 && s.txs[k].phase.Logged? && Good(s) && AimedAt(m, key, environment)
    requires Steady(s, c0, m, key, environment) && AllAlongside(AfterCommit(s, k).txs, m, key, environment)
    ensures Steady(AfterCommit(s, k), c0, m, key, environment)
  {
    hide Good, TxOk, View, SameImage, InsertedRules, AimedAt, Settled, FindFlag, AfterCommit, OnTheWay, AllAlongside,
      NobodyCreates, NewsElsewhere, Consistent;
    var s', found := AfterCommit(s, k), FindFlag(c0.flags, key, environment);
    TxsAfterCommit(s, k);
    ElsewhereByCast(s.txs, m, key, environment, k);
    if 0 !in s.order {
      TxIsOk(s, k);
      ViewsAreConsistent(s, k);
      FoundElsewhere(s.committed, s.issued, s.txs[k], s.txs[k].phase.target, key, environment);
    }
    if found.Some? {
      var f := found.value;
      FlagAfterOthersCommit(s, k, c0, m, key, environment, f);
      NobodyCreatesAfterCommit(s, k, f);
      if 0 in s.order {
        SameImageSelf(c0, c0, f);
        SettledSameFlag(c0, s.committed, c0, s'.committed, m, f);
      } else {
        OnTheWayAfterOthersCommit(s, k, c0, m, key, environment, f);
      }
    }
  }

  lemma ElsewhereByCast(txs: map<nat, Tx>, m: Mutation, key: string, environment: string, k: nat)
    requires AllAlongside(txs, m, key, environment) && k in txs && k != 0
    ensures !AimedAt(txs[k].mutation, key, environment)
  {
  }

  lemma ViewsAreConsistent(s: State, k: nat)
    requires Good(s) && k in s.txs
    ensures Consistent(s.committed) && Consistent(View(s.committed, s.txs[k].delta))
  {
  }

  // ---------------------------------------------------------------- whole runs

  lemma StartsSteady(s: State, m: Mutation, key: string, environment: string)
    requires Initial(s)
    ensures Steady(s, s.committed, m, key, environment)
  {
    hide Consistent, FindFlag;
    var found := FindFlag(s.committed.flags, key, environment);
    if found.Some? {
      FoundIsIssued(s, key, environment, found.value);
    }
  }

  lemma FoundIsIssued(s: State, key: string, environment: string, f: Uuid)
    requires Initial(s) && FindFlag(s.committed.flags, key, environment) == Some(f)
    ensures f in s.issued
  {
    hide Consistent;
  }

  lemma SteadyAfterStep(s: State, step: Step, c0: Tables, m: Mutation, key: string, environment: string)
    requires Enabled(s, step) && Alongside(step, m, key, environment) && Good(s) && AimedAt(m, key, environment)
    requires Steady(s, c0, m, key, environment)
    ensures Steady(After(s, step), c0, m, key, environment)
  {
    if step.Commit? {
      assert AllAlongside(s.txs, m, key, environment) && step.k in s.txs && s.txs[step.k].phase.Logged?;
      hide Good, Steady, AimedAt, AllAlongside, Alongside, AfterCommit;
      CastKept(s, step, m, key, environment);
      if step.k == 0 {
        SteadyAfterOwnCommit(s, c0, m, key, environment);
      } else {
        SteadyAfterOthersCommit(s, step.k, c0, m, key, environment);
      }
    } else {
      hide Good, Steady, Enabled, After, AimedAt, Alongside;
      SteadyAfterOther(s, step, c0, m, key, environment);
    }
  }

  /** In every such run the flag is as at the start or as the mutation's commit leaves it. */
  lemma {:induction false} SteadyAlways(
    s: State, steps: seq<Step>, m: Mutation, key: string, environment: string)
    requires Initial(s) && Legal(s, steps) && RunAlongside(steps, m, key, environment)
    requires AimedAt(m, key, environment)
    ensures Steady(Final(s, steps), s.committed, m, key, environment)
    decreases |steps|
  {
    hide Initial, Good, Steady, Enabled, After, Alongside, AimedAt;
    if steps == [] {
      StartsSteady(s, m, key, environment);
    } else {
      var init, step := steps[..|steps| - 1], steps[|steps| - 1];
      assert Alongside(steps[|steps| - 1], m, key, environment);
      SteadyAlways(s, init, m, key, environment);
      GoodAlways(s, init);
      SteadyAfterStep(Final(s, init), step, s.committed, m, key, environment);
    }
  }

  lemma SteadyAt(s: State, steps: seq<Step>, m: Mutation, key: string, environment: string, i: nat)
    requires Initial(s) && Legal(s, steps) && RunAlongside(steps, m, key, environment) && i <= |steps|
    requires AimedAt(m, key, environment)
    ensures Steady(StateAt(s, steps, i), s.committed, m, key, environment)
  {
    hide Initial, Legal, Final, Steady, AimedAt, Alongside;
    PrefixLegal(s, steps, i);
    assert RunAlongside(steps[..i], m, key, environment);
    SteadyAlways(s, steps[..i], m, key, environment);
  }

  /** Each transaction carries out what it is cast for. */
  lemma {:induction false} CastAlways(s: State, steps: seq<Step>, m: Mutation, key: string, environment: string)
    requires s.txs == map[] && Legal(s, steps) && RunAlongside(steps, m, key, environment)
    ensures AllAlongside(Final(s, steps).txs, m, key, environment)
    decreases |steps|
  {
    if steps != [] {
      hide Enabled, After, Alongside, AllAlongside;
      var init := steps[..|steps| - 1];
      assert Alongside(steps[|steps| - 1], m, key, environment);
      CastAlways(s, init, m, key, environment);
      CastKept(Final(s, init), steps[|steps| - 1], m, key, environment);
    }
  }
}
