/**
 getAssignment never fails for want of variants or for an unknown stored variant, and the
 variant it stores for an unassigned user is the one of the user's share.
 */
module NeverLost {
  import opened Schema
  import opened Statements
  import opened Weights
  import opened Protocol
  import opened Transactions
  import opened Interleaving
  import opened Isolation
  import opened Reachable
  import opened Shares

  predicate LosesVariant(stage: Stage) {
    stage.Rejected? && (stage.error.NoVariantsFound? || stage.error.UnknownVariant?)
  }

  ghost predicate CallSound(hash: Hash, c: Tables, call: Call) {
    && !LosesVariant(call.stage)
    && match call.stage
       case HasExperiment(e) => e in c.experiments
       case HasVariants(e, list) => e in c.experiments && list == VariantsOf(c.variants, e)
       case Unassigned(e, v) =>
         e in c.experiments && ChosenByShare(hash, call.user, e, VariantsOf(c.variants, e), v)
       case _ => true
  }

  ghost predicate CallsSound(s: State) {
    forall n :: n in s.calls ==> CallSound(s.hash, s.committed, s.calls[n])
  }

  lemma StoredVariantIsListed(c: Tables, u: Uuid, e: Uuid)
    requires Consistent(c) && (u, e) in c.assignments
    ensures VariantIndex(VariantsOf(c.variants, e), c.assignments[(u, e)]).Some?
  {
    hide UsersOk, RulesOk, VariantsOk, UniqueBy;
    var v := c.assignments[(u, e)];
    var ids := Sorted(VariantIds(c.variants, e));
    assert v in VariantIds(c.variants, e);
    var i :| 0 <= i < |ids| && ids[i] == v;
    assert VariantsOf(c.variants, e)[i].id == v;
  }

  lemma ListIsShared(c: Tables, e: Uuid)
    requires SharesOut(c, e)
    ensures Shared(VariantsOf(c.variants, e))
  {
    hide NonNegative, Sum;
  }

  lemma CallAfterLoad(s: State, n: nat, step: Step)
    requires Consistent(s.committed) && Weighted(s.committed) && CallsSound(s) && Enabled(s, step)
    requires step.LoadExperiment? || step.LoadVariants? || step.LoadAssignment? || step.CallFault?
    requires n == step.call
    ensures CallSound(s.hash, s.committed, After(s, step).calls[n])
  {
    hide Consistent, VariantsOf, Assigned, NonNegative, Sum, ChosenByShare, Shared;
    var call, c := s.calls[n], s.committed;
    assert CallSound(s.hash, c, call);
    if step.LoadVariants? {
      assert SharesOut(c, call.stage.experiment);
    } else if step.LoadAssignment? && ParseUuid(call.user).Some? {
      var u, e := ParseUuid(call.user).value, call.stage.experiment;
      if (u, e) in c.assignments {
        StoredVariantIsListed(c, u, e);
      } else {
        assert SharesOut(c, e);
        ListIsShared(c, e);
        AssignedByShare(s.hash, call.user, e, call.stage.variants);
      }
    }
  }

  lemma CallsAfterCommit(s: State, k: nat, x: Uuid)
    requires k in s.txs && s.txs[k].phase == Logged(x)
    requires Consistent(s.committed) && TxOk(s.committed, s.issued, s.txs[k]) && CallsSound(s)
    ensures CallsSound(AfterCommit(s, k))
  {
    hide Consistent, TxOk, VariantsOf, LosesVariant, View, ChosenByShare;
    var s' := AfterCommit(s, k);
    forall n | n in s'.calls
      ensures CallSound(s'.hash, s'.committed, s'.calls[n])
    {
      var stage := s.calls[n].stage;
      assert CallSound(s.hash, s.committed, s.calls[n]);
      if stage.HasExperiment? || stage.HasVariants? || stage.Unassigned? {
        VariantsNeverChange(s.committed, s.issued, s.txs[k], x, stage.experiment);
      }
    }
  }

  lemma CallsAfterOther(s: State, step: Step)
    requires Consistent(s.committed) && Weighted(s.committed) && CallsSound(s) && Enabled(s, step) && !step.Commit?
    ensures CallsSound(After(s, step))
  {
    hide Consistent, Weighted, VariantsOf, View, Exec, Decide, Admit, LosesVariant, AfterStatement, ChosenByShare,
      Assigned, Sum, NonNegative, Shared;
    SharesIgnoreAssignments(s, step);
    forall n | n in After(s, step).calls
      ensures CallSound(s.hash, After(s, step).committed, After(s, step).calls[n])
    {
      if n in s.calls {
        assert CallSound(s.hash, s.committed, s.calls[n]);
      }
      if (step.LoadExperiment? || step.LoadVariants? || step.LoadAssignment? || step.CallFault?) && n == step.call {
        CallAfterLoad(s, n, step);
      } else if step.Store? && n == step.call {
        StoreNeverLoses(s, n);
      } else if step.Ask? && n == step.call {
        AskNeverLoses(step.user);
      }
    }
  }

  lemma AskNeverLoses(user: IdText)
    ensures !LosesVariant(AskStage(user)) && !AskStage(user).HasExperiment? && !AskStage(user).HasVariants?
      && !AskStage(user).Unassigned?
  {
  }

  lemma StoreNeverLoses(s: State, n: nat)
    requires n in s.calls && s.calls[n].stage.Unassigned?
    ensures var stage := AfterStore(s, n).calls[n].stage;
      !LosesVariant(stage) && !stage.HasExperiment? && !stage.HasVariants? && !stage.Unassigned?
  {
  }

  /** In every run no call ends with "no variants" or with an unknown stored variant. */
  lemma {:induction false} NoCallLosesItsVariant(s: State, steps: seq<Step>)
    requires Initial(s) && Weighted(s.committed) && Legal(s, steps) && SmallBodies(steps)
    ensures CallsSound(Final(s, steps))
    decreases |steps|
  {
    if steps != [] {
      var init, step := steps[..|steps| - 1], steps[|steps| - 1];
      NoCallLosesItsVariant(s, init);
      VisibleWeightsSumTo100(s, init);
      GoodAlways(s, init);
      var f := Final(s, init);
      hide CallsSound, Weighted, Consistent;
      if step.Commit? {
        CommitReady(f, step.k);
        CallsAfterCommit(f, step.k, f.txs[step.k].phase.target);
      } else {
        CallsAfterOther(f, step);
      }
    }
  }

  lemma CommitReady(s: State, k: nat)
    requires Good(s) && k in s.txs
    ensures TxOk(s.committed, s.issued, s.txs[k])
  {
  }

  /** The call stores and answers the variant of the user's share, or fails and stores nothing. */
  ghost predicate StoredByShare(s: State, n: nat)
    requires n in s.calls && s.calls[n].stage.Unassigned?
  {
    var c, call, s' := s.committed, s.calls[n], AfterStore(s, n);
    var e, list := call.stage.experiment, VariantsOf(c.variants, call.stage.experiment);
    && Shared(list)
    && n in s'.calls
    && match s'.calls[n].stage
       case Answered(x, v) =>
         && x == e && ParseUuid(call.user).Some?
         && s'.committed == c.(assignments := c.assignments[(ParseUuid(call.user).value, e) := v.id])
         && ChosenByShare(s.hash, call.user, e, list, v)
       case Rejected(_) => s'.committed == c
       case _ => false
  }

  lemma SoundStore(s: State, n: nat)
    requires n in s.calls && s.calls[n].stage.Unassigned? && CallSound(s.hash, s.committed, s.calls[n])
    requires Weighted(s.committed)
    ensures StoredByShare(s, n)
  {
    hide Weighted, ChosenByShare, Shared, VariantsOf;
    VisibleIsShared(s.committed, s.calls[n].stage.experiment);
  }

  /**
   In every run the variant that a call stores for a user without an assignment is the one into
   whose share of 100 the hash of the user's text and the experiment falls.
   */
  lemma StoresByShare(s: State, steps: seq<Step>, n: nat)
    requires Initial(s) && Weighted(s.committed) && Legal(s, steps) && SmallBodies(steps)
    requires n in Final(s, steps).calls && Final(s, steps).calls[n].stage.Unassigned?
    ensures StoredByShare(Final(s, steps), n)
  {
    hide Initial, Legal, Final, Weighted, SmallBodies, CallSound, StoredByShare;
    NoCallLosesItsVariant(s, steps);
    VisibleWeightsSumTo100(s, steps);
    SoundStore(Final(s, steps), n);
  }

  lemma VisibleIsShared(c: Tables, e: Uuid)
    requires Weighted(c) && e in c.experiments
    ensures Shared(VariantsOf(c.variants, e))
  {
    hide SharesOut;
    ListIsShared(c, e);
  }
}
