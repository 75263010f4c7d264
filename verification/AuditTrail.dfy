/**
 Fail-closed audit over whole runs: committed changes and audit rows go together, the log
 names who changed what, and replaying the log gives the entities that exist.
 */
module AuditTrail {
  import opened Wrappers
  import opened Schema
  import opened Statements
  import opened Protocol
  import opened Transactions
  import opened Interleaving
  import opened Isolation
  import opened Reachable

  // ---------------------------------------------------------------- one entity's data

  ghost predicate SameRow<K, V>(m: map<K, V>, m': map<K, V>, x: K) {
    (x in m <==> x in m') && (x in m ==> m[x] == m'[x])
  }

  ghost predicate SameRules(c: Tables, c': Tables, x: Uuid) {
    forall r :: (r in c.rules && c.rules[r].flag == x) || (r in c'.rules && c'.rules[r].flag == x) ==>
      SameRow(c.rules, c'.rules, r)
  }

  ghost predicate SameVariants(c: Tables, c': Tables, x: Uuid) {
    forall v ::
      (v in c.variants && c.variants[v].experiment == x) || (v in c'.variants && c'.variants[v].experiment == x)
      ==> SameRow(c.variants, c'.variants, v)
  }

  /** An entity and its children are the same in two states. */
  ghost predicate SameImage(c: Tables, c': Tables, e: Entity, x: Uuid) {
    match e
    case User => SameRow(c.users, c'.users, x)
    case FeatureFlag => SameRow(c.flags, c'.flags, x) && SameRules(c, c', x)
    case Experiment => SameRow(c.experiments, c'.experiments, x) && SameVariants(c, c', x)
  }

  /** The audit row names the entity. */
  predicate Names(row: AuditRow, e: Entity, x: Uuid) {
    row.entity == e && ParseUuid(row.entityId) == Some(x)
  }

  // ---------------------------------------------------------------- one step

  /** No entity but one differs. */
  ghost predicate OthersSame(c: Tables, c': Tables, entity: Entity, x: Uuid) {
    forall e: Entity, y: Uuid :: e != entity || y != x ==> SameImage(c, c', e, y)
  }

  /** What a commit does: one audit row, and no entity changes but the one it names. */
  ghost predicate AuditedCommit(c: Tables, c': Tables, tx: Tx, x: Uuid) {
    && |c'.audit| == |c.audit| + 1
    && c'.audit[..|c.audit|] == c.audit
    && AuditFor(tx, x, c'.audit[|c.audit|])
    && Names(c'.audit[|c.audit|], EntityOf(tx.mutation), x)
    && OthersSame(c, c', EntityOf(tx.mutation), x)
    && LiveIn(c, EntityOf(tx.mutation), x) == (ActionOf(tx.mutation) != Create)
    && LiveIn(c', EntityOf(tx.mutation), x) == (ActionOf(tx.mutation) != Delete)
  }

  lemma UserCommitImage(c: Tables, d: Delta, x: Uuid, e: Entity, y: Uuid)
    requires OnlyUser(d, x) && (e != User || y != x)
    ensures SameImage(c, View(c, d), e, y)
  {
  }

  lemma FlagCommitImage(c: Tables, d: Delta, x: Uuid, e: Entity, y: Uuid)
    requires OnlyFlag(c, d, x) && (e != FeatureFlag || y != x)
    ensures SameImage(c, View(c, d), e, y)
  {
    var v := View(c, d);
    if e == FeatureFlag {
      forall r | (r in c.rules && c.rules[r].flag == y) || (r in v.rules && v.rules[r].flag == y)
        ensures SameRow(c.rules, v.rules, r)
      {
        assert r !in d.rules;
        assert !Deletes(d.flags, y);
      }
    }
  }

  lemma ExperimentCommitImage(c: Tables, d: Delta, x: Uuid, e: Entity, y: Uuid)
    requires OnlyExperiment(c, d, x) && (e != Experiment || y != x)
    ensures SameImage(c, View(c, d), e, y)
  {
    var v := View(c, d);
    if e == Experiment {
      forall i |
        (i in c.variants && c.variants[i].experiment == y) || (i in v.variants && v.variants[i].experiment == y)
        ensures SameRow(c.variants, v.variants, i)
      {
        assert i !in d.variants;
      }
    }
  }

  lemma CommitChangesTargetOnly(c: Tables, issued: set<Uuid>, tx: Tx, x: Uuid, e: Entity, y: Uuid)
    requires TxOk(c, issued, tx) && tx.phase == Logged(x)
    requires e != EntityOf(tx.mutation) || y != x
    ensures SameImage(c, View(c, tx.delta), e, y)
  {
    hide Scheduled, Standing, AuditFor, SameImage, View;
    match EntityOf(tx.mutation)
    case User => UserCommitImage(c, tx.delta, x, e, y);
    case FeatureFlag => FlagCommitImage(c, tx.delta, x, e, y);
    case Experiment => ExperimentCommitImage(c, tx.delta, x, e, y);
  }

  lemma CommitLife(c: Tables, issued: set<Uuid>, tx: Tx, x: Uuid)
    requires TxOk(c, issued, tx) && tx.phase == Logged(x)
    ensures LiveIn(c, EntityOf(tx.mutation), x) == (ActionOf(tx.mutation) != Create)
    ensures LiveIn(View(c, tx.delta), EntityOf(tx.mutation), x) == (ActionOf(tx.mutation) != Delete)
  {
    hide Touches, AuditFor;
  }

  lemma CommitRow(c: Tables, issued: set<Uuid>, tx: Tx, x: Uuid)
    requires TxOk(c, issued, tx) && tx.phase == Logged(x)
    ensures var c' := View(c, tx.delta);
      && |c'.audit| == |c.audit| + 1
      && c'.audit[..|c.audit|] == c.audit
      && AuditFor(tx, x, c'.audit[|c.audit|])
      && Names(c'.audit[|c.audit|], EntityOf(tx.mutation), x)
  {
    hide Touches, Scheduled;
    var row := tx.delta.audit[0];
    assert View(c, tx.delta).audit == c.audit + [row];
  }

  lemma TxIsOk(s: State, k: nat)
    requires Good(s) && k in s.txs
    ensures TxOk(s.committed, s.issued, s.txs[k])
  {
  }

  lemma CommitKeepsOthers(c: Tables, issued: set<Uuid>, tx: Tx, x: Uuid)
    requires TxOk(c, issued, tx) && tx.phase == Logged(x)
    ensures OthersSame(c, View(c, tx.delta), EntityOf(tx.mutation), x)
  {
    hide TxOk, View, SameImage;
    forall e: Entity, y: Uuid | e != EntityOf(tx.mutation) || y != x
      ensures SameImage(c, View(c, tx.delta), e, y)
    {
      CommitChangesTargetOnly(c, issued, tx, x, e, y);
    }
  }

  lemma CommitIsAudited(c: Tables, issued: set<Uuid>, tx: Tx, x: Uuid)
    requires TxOk(c, issued, tx) && tx.phase == Logged(x)
    ensures AuditedCommit(c, View(c, tx.delta), tx, x)
  {
    hide View, TxOk, AuditFor, OthersSame, LiveIn, Names;
    CommitRow(c, issued, tx, x);
    CommitLife(c, issued, tx, x);
    CommitKeepsOthers(c, issued, tx, x);
  }

  /** The commit step does exactly that to the committed tables. */
  lemma CommitStepIsAudited(s: State, k: nat, x: Uuid)
    requires k in s.txs && s.txs[k].phase == Logged(x)
    requires Good(s)
    ensures AuditedCommit(s.committed, AfterCommit(s, k).committed, s.txs[k], x)
  {
    hide Good, View, TxOk, AuditedCommit;
    TxIsOk(s, k);
    CommitIsAudited(s.committed, s.issued, s.txs[k], x);
  }

  /** Only a commit changes audited tables; besides it, only an assignment can be stored. */
  lemma OtherStepsWriteNothing(s: State, step: Step)
    requires Enabled(s, step) && !step.Commit?
    ensures var c, c' := s.committed, After(s, step).committed;
      c' == c || (step.Store? && c' == c.(assignments := c'.assignments))
  {
  }

  // ---------------------------------------------------------------- whole runs

  /** Rows appended since the start of a run. */
  function Appended(c0: Tables, c: Tables): seq<AuditRow> {
    if |c0.audit| <= |c.audit| then c.audit[|c0.audit|..] else []
  }

  /** The committed transactions and the appended rows match one to one, in commit order. */
  ghost predicate Recorded(c0: Tables, s: State) {
    && c0.audit <= s.committed.audit
    && |Appended(c0, s.committed)| == |s.order|
    && (forall i :: 0 <= i < |s.order| ==>
          && s.order[i] in s.txs
          && s.txs[s.order[i]].phase.Finished?
          && AuditFor(s.txs[s.order[i]], s.txs[s.order[i]].phase.target, Appended(c0, s.committed)[i]))
    && (forall i, j :: 0 <= i < j < |s.order| ==> s.order[i] != s.order[j])
    && (forall k :: k in s.txs && s.txs[k].phase.Finished? ==> k in s.order)
  }

  /** Every transaction that was let in carries the subject of allowed claims as its actor. */
  ghost predicate Admitted(s: State) {
    forall k :: k in s.txs && !s.txs[k].phase.Failed? ==>
      Admit(s.txs[k].mutation, s.txs[k].claims) == Success(s.txs[k].actor)
  }

  lemma AdmittedAfterStep(s: State, step: Step)
    requires Admitted(s) && Enabled(s, step)
    ensures Admitted(After(s, step))
  {
    hide Admit, Decide, View, Exec;
  }

  lemma AppendedGrows(c0: Tables, c: Tables, c': Tables)
    requires c0.audit <= c.audit && |c'.audit| == |c.audit| + 1 && c'.audit[..|c.audit|] == c.audit
    ensures c0.audit <= c'.audit
    ensures Appended(c0, c') == Appended(c0, c) + [c'.audit[|c.audit|]]
  {
  }

  lemma RecordedAfterCommit(c0: Tables, s: State, k: nat, x: Uuid)
    requires k in s.txs && s.txs[k].phase == Logged(x)
    requires Good(s) && Recorded(c0, s)
    ensures Recorded(c0, AfterCommit(s, k))
  {
    hide Good, AuditFor, OthersSame, Names, LiveIn, AfterCommit, Appended;
    CommitStepIsAudited(s, k, x);
    AuditForSurvives(s, k, x);
    var s' := AfterCommit(s, k);
    var c, c' := s.committed, s'.committed;
    AppendedGrows(c0, c, c');
    assert AuditFor(s'.txs[k], x, c'.audit[|c.audit|]);
    forall i | 0 <= i < |s'.order|
      ensures s'.order[i] in s'.txs && s'.txs[s'.order[i]].phase.Finished?
      ensures AuditFor(s'.txs[s'.order[i]], s'.txs[s'.order[i]].phase.target, Appended(c0, c')[i])
    {
      if i < |s.order| {
        assert s'.order[i] == s.order[i] && s.order[i] != k;
        assert AuditFor(s.txs[s.order[i]], s.txs[s.order[i]].phase.target, Appended(c0, c)[i]);
      }
    }
    assert forall j :: j in s'.txs && s'.txs[j].phase.Finished? && j != k ==> j in s.order;
  }

  lemma RecordedAfterOther(c0: Tables, s: State, step: Step)
    requires Recorded(c0, s) && Enabled(s, step) && !step.Commit?
    ensures Recorded(c0, After(s, step))
  {
    OtherStepsWriteNothing(s, step);
    FinishedStays(s, step);
    hide View, AuditFor, After, Enabled;
  }

  lemma AuditForSurvives(s: State, k: nat, target: Uuid)
    requires k in s.txs && s.txs[k].phase == Logged(target)
    ensures var s' := AfterCommit(s, k);
      && s'.order == s.order + [k]
      && s'.txs[k].phase == Finished(target)
      && (forall j :: j in s.txs <==> j in s'.txs)
      && (forall j :: j in s.txs && j != k ==> s'.txs[j].phase == s.txs[j].phase)
      && forall j, x: Uuid, row :: j in s.txs && AuditFor(s.txs[j], x, row) ==> AuditFor(s'.txs[j], x, row)
  {
  }

  lemma FinishedStays(s: State, step: Step)
    requires Enabled(s, step) && !step.Commit?
    ensures var s' := After(s, step);
      && (forall j :: j in s.txs && s.txs[j].phase.Finished? ==> j in s'.txs && s'.txs[j] == s.txs[j])
      && (forall j :: j in s'.txs && s'.txs[j].phase.Finished? ==> j in s.txs && s.txs[j].phase.Finished?)
      && s'.order == s.order
  {
    hide View, Decide, Exec, Admit;
  }

  /**
   Fail-closed audit in every interleaving, with failures anywhere: each committed
   transaction has exactly one audit row, in commit order, naming its entity, id and action,
   with an actor whose claims the role gate allowed; every other transaction has none.
   */
  lemma {:induction false} EveryCommitIsAudited(s: State, steps: seq<Step>)
    requires Initial(s) && Legal(s, steps)
    ensures Recorded(s.committed, Final(s, steps)) && Admitted(Final(s, steps))
    decreases |steps|
  {
    if steps == [] {
      assert s.committed.audit[|s.committed.audit|..] == [];
    } else {
      var init := steps[..|steps| - 1];
      EveryCommitIsAudited(s, init);
      GoodAlways(s, init);
      hide Good, Recorded, Admitted, After, Enabled;
      var f, step := Final(s, init), steps[|steps| - 1];
      if step.Commit? {
        RecordedAfterCommit(s.committed, f, step.k, f.txs[step.k].phase.target);
      } else {
        RecordedAfterOther(s.committed, f, step);
      }
      AdmittedAfterStep(f, step);
    }
  }

  /** The actor of a committed row is the non-empty subject of claims whose role may do this. */
  lemma ActorWasAllowed(s: State, steps: seq<Step>, i: nat)
    requires Initial(s) && Legal(s, steps)
    requires i < |Appended(s.committed, Final(s, steps).committed)|
    ensures var f := Final(s, steps); var row := Appended(s.committed, f.committed)[i];
      && i < |f.order| && f.order[i] in f.txs
      && var tx := f.txs[f.order[i]];
         && tx.claims.Some?
         && tx.claims.value.role in AllowedRoles(tx.mutation)
         && tx.claims.value.sub != EMPTY_ID
         && ParseUuid(tx.claims.value.sub) == Some(row.actor)
  {
    EveryCommitIsAudited(s, steps);
    hide Legal, Final, Initial;
    var f := Final(s, steps);
    var tx := f.txs[f.order[i]];
    assert Admit(tx.mutation, tx.claims) == Success(tx.actor);
  }

  lemma StepGrowsLog(s: State, step: Step)
    requires Good(s) && Enabled(s, step)
    ensures s.committed.audit <= After(s, step).committed.audit
  {
    hide Good;
    if step.Commit? {
      CommitStepIsAudited(s, step.k, s.txs[step.k].phase.target);
    } else {
      OtherStepsWriteNothing(s, step);
    }
  }

  lemma {:induction false} LogGrows(s: State, steps: seq<Step>, n: nat)
    requires Initial(s) && Legal(s, steps) && n <= |steps| && Legal(s, steps[..n])
    ensures Final(s, steps[..n]).committed.audit <= Final(s, steps).committed.audit
    decreases |steps|
  {
    if n == |steps| {
      assert steps[..n] == steps;
    } else {
      var init := steps[..|steps| - 1];
      assert init[..n] == steps[..n];
      LogGrows(s, init, n);
      GoodAlways(s, init);
      hide Good, After, Enabled;
      StepGrowsLog(Final(s, init), steps[|steps| - 1]);
    }
  }

  lemma SameImageChain(c: Tables, c': Tables, c'': Tables, e: Entity, x: Uuid)
    requires SameImage(c, c', e, x) && SameImage(c', c'', e, x)
    ensures SameImage(c, c'', e, x)
  {
  }

  lemma SameImageRefl(c: Tables, c': Tables, e: Entity, x: Uuid)
    requires c' == c.(assignments := c'.assignments)
    ensures SameImage(c, c', e, x)
  {
  }

  /** An entity that one step changes is named by the row this step appends. */
  lemma ChangeIsNamed(s: State, step: Step, e: Entity, x: Uuid)
    requires Good(s) && Enabled(s, step)
    requires !SameImage(s.committed, After(s, step).committed, e, x)
    ensures var c, c' := s.committed, After(s, step).committed;
      |c'.audit| == |c.audit| + 1 && c'.audit[..|c.audit|] == c.audit && Names(c'.audit[|c.audit|], e, x)
  {
    if step.Commit? {
      CommitStepIsAudited(s, step.k, s.txs[step.k].phase.target);
    } else {
      OtherStepsWriteNothing(s, step);
      SameImageRefl(s.committed, After(s, step).committed, e, x);
    }
  }

  ghost predicate NamedIn(rows: seq<AuditRow>, e: Entity, x: Uuid) {
    exists row :: row in rows && Names(row, e, x)
  }

  lemma StillNamed(c0: Tables, c: Tables, c': Tables, e: Entity, x: Uuid)
    requires c0.audit <= c.audit <= c'.audit && NamedIn(Appended(c0, c), e, x)
    ensures NamedIn(Appended(c0, c'), e, x)
  {
    var row :| row in Appended(c0, c) && Names(row, e, x);
    var i :| 0 <= i < |Appended(c0, c)| && Appended(c0, c)[i] == row;
    assert Appended(c0, c')[i] == row;
  }

  lemma NewestIsAppended(c0: Tables, c: Tables, c': Tables, e: Entity, x: Uuid)
    requires c0.audit <= c.audit && |c'.audit| == |c.audit| + 1 && c'.audit[..|c.audit|] == c.audit
    requires Names(c'.audit[|c.audit|], e, x)
    ensures NamedIn(Appended(c0, c'), e, x)
  {
    hide Names;
    assert c'.audit[|c.audit|] == Appended(c0, c')[|c.audit| - |c0.audit|];
  }

  /** One step more: what is named stays named, and a change the step makes is named by it. */
  lemma NamedAfterStep(c0: Tables, s: State, step: Step, e: Entity, x: Uuid)
    requires Good(s) && Enabled(s, step) && c0.audit <= s.committed.audit
    requires SameImage(c0, s.committed, e, x) || NamedIn(Appended(c0, s.committed), e, x)
    requires !SameImage(c0, After(s, step).committed, e, x)
    ensures NamedIn(Appended(c0, After(s, step).committed), e, x)
  {
    hide SameImage, Good, Names, After, Enabled, NamedIn, Appended;
    var c, c' := s.committed, After(s, step).committed;
    StepGrowsLog(s, step);
    if SameImage(c, c', e, x) {
      if SameImage(c0, c, e, x) {
        SameImageChain(c0, c, c', e, x);
      }
      StillNamed(c0, c, c', e, x);
    } else {
      ChangeIsNamed(s, step, e, x);
      NewestIsAppended(c0, c, c', e, x);
    }
  }

  /**
   No data changes without an audit trail: an entity that differs between any two points of a
   run is named by a row appended between them.
   */
  lemma {:induction false} NoSilentChange(s: State, steps: seq<Step>, n: nat, e: Entity, x: Uuid)
    requires Initial(s) && Legal(s, steps) && n <= |steps| && Legal(s, steps[..n])
    requires !SameImage(Final(s, steps[..n]).committed, Final(s, steps).committed, e, x)
    ensures NamedIn(Appended(Final(s, steps[..n]).committed, Final(s, steps).committed), e, x)
    decreases |steps|
  {
    if n == |steps| {
      assert steps[..n] == steps;
      SameImageRefl(Final(s, steps).committed, Final(s, steps).committed, e, x);
    } else {
      var init := steps[..|steps| - 1];
      assert init[..n] == steps[..n];
      var c0, f := Final(s, steps[..n]).committed, Final(s, init);
      LogGrows(s, init, n);
      GoodAlways(s, init);
      hide SameImage, Good, Initial, Names, After, Enabled, NamedIn, Appended;
      if !SameImage(c0, f.committed, e, x) {
        NoSilentChange(s, init, n, e, x);
      }
      NamedAfterStep(c0, f, steps[|steps| - 1], e, x);
    }
  }
}
