/**
 Sticky assignment: getAssignment reads, computes and upserts outside any transaction, and
 still all callers that name a user alike get one variant for ever.
 */
module Stickiness {
  import opened Wrappers
  import opened Schema
  import opened Statements
  import opened Weights
  import opened Protocol
  import opened Transactions
  import opened Interleaving
  import opened Isolation
  import opened Reachable
  import opened Shares

  /** The text names user w. */
  predicate NamesUser(text: IdText, w: Uuid) {
    ParseUuid(text) == Some(w)
  }

  /** Those of the texts that name user w lead to one variant of the experiment. */
  ghost predicate Agree(hash: Hash, texts: set<IdText>, w: Uuid, e: Uuid, list: seq<Variant>) {
    list != [] ==>
      forall a, b :: a in texts && b in texts && NamesUser(a, w) && NamesUser(b, w) ==>
        Assigned(hash, a, e, list) == Assigned(hash, b, e, list)
  }

  /** Callers that name user w use these texts; callers that name anybody else use any. */
  ghost predicate Asks(steps: seq<Step>, texts: set<IdText>, w: Uuid) {
    forall i :: 0 <= i < |steps| ==> AskOk(steps[i], texts, w)
  }

  predicate AskOk(step: Step, texts: set<IdText>, w: Uuid) {
    step.Ask? && NamesUser(step.user, w) ==> step.user in texts
  }

  /** User w is not being created. */
  ghost predicate NotNewborn(txs: map<nat, Tx>, w: Uuid) {
    forall k :: k in txs && txs[k].mutation.CreateUser? ==> TargetOf(txs[k]) != Some(w)
  }

  /** A stored variant was there from the start or is the one computed for a text of the user. */
  ghost predicate Origin(c0: Tables, hash: Hash, texts: set<IdText>, w: Uuid, e: Uuid, list: seq<Variant>, v: Uuid) {
    || (w, e) in c0.assignments
    || (list != [] && exists a :: a in texts && NamesUser(a, w) && Assigned(hash, a, e, list).id == v)
  }

  ghost predicate SettledOk(c0: Tables, texts: set<IdText>, w: Uuid, e: Uuid, list: seq<Variant>, s: State) {
    var c := s.committed;
    && ((w, e) in c.assignments ==> (w, e) in s.settled && s.settled[(w, e)] == c.assignments[(w, e)])
    && ((w, e) in s.settled ==>
          && w in s.issued
          && NotNewborn(s.txs, w)
          && ((w, e) in c.assignments || w !in c.users)
          && Origin(c0, s.hash, texts, w, e, list, s.settled[(w, e)]))
    && ((w, e) in c0.assignments ==> (w, e) in s.settled)
  }

  /** How far a call about the experiment has got; what is said of its answer holds for callers of w. */
  ghost predicate CallOk(
    c0: Tables, texts: set<IdText>, w: Uuid, e: Uuid, list: seq<Variant>, s: State, call: Call)
  {
    && (NamesUser(call.user, w) ==> call.user in texts)
    && match call.stage
       case HasExperiment(x) => x == e ==> e in s.committed.experiments
       case HasVariants(x, l) => x == e ==> e in s.committed.experiments && l == list && list != []
       case Unassigned(x, v) => x == e && NamesUser(call.user, w) ==>
         && e in s.committed.experiments
         && list != []
         && v == Assigned(s.hash, call.user, e, list)
         && ((w, e) in c0.assignments ==> w !in s.committed.users)
       case Answered(x, v) => x == e && NamesUser(call.user, w) ==>
         && v in list
         && (w, e) in s.settled && s.settled[(w, e)] == v.id
       case _ => true
  }

  ghost predicate Listed(e: Uuid, list: seq<Variant>, c: Tables) {
    e in c.experiments ==> list == VariantsOf(c.variants, e)
  }

  ghost predicate StickyOk(c0: Tables, texts: set<IdText>, w: Uuid, e: Uuid, list: seq<Variant>, s: State) {
    && Listed(e, list, s.committed)
    && SettledOk(c0, texts, w, e, list, s)
    && forall n :: n in s.calls ==> CallOk(c0, texts, w, e, list, s, s.calls[n])
  }

  // ---------------------------------------------------------------- commits

  lemma UsersAfterCommit(c: Tables, issued: set<Uuid>, tx: Tx, x: Uuid, u: Uuid)
    requires TxOk(c, issued, tx) && tx.phase == Logged(x)
    requires u !in c.users && u in View(c, tx.delta).users
    ensures tx.mutation.CreateUser? && u == x
  {
    hide Scheduled, AuditFor;
  }

  lemma SettledAfterCommit(
    c0: Tables, texts: set<IdText>, w: Uuid, e: Uuid, list: seq<Variant>, s: State, k: nat, x: Uuid)
    requires k in s.txs && s.txs[k].phase == Logged(x)
    requires TxOk(s.committed, s.issued, s.txs[k])
    requires SettledOk(c0, texts, w, e, list, s)
    ensures SettledOk(c0, texts, w, e, list, AfterCommit(s, k))
  {
    hide TxOk, Origin;
    var s' := AfterCommit(s, k);
    if (w, e) in s.settled {
      assert TargetOf(s.txs[k]) == Some(x);
      if w in s'.committed.users && w !in s.committed.users {
        UsersAfterCommit(s.committed, s.issued, s.txs[k], x, w);
      }
    }
  }

  lemma CallAfterCommit(
    c0: Tables, texts: set<IdText>, w: Uuid, e: Uuid, list: seq<Variant>, s: State, k: nat, x: Uuid, call: Call)
    requires k in s.txs && s.txs[k].phase == Logged(x)
    requires Consistent(s.committed) && TxOk(s.committed, s.issued, s.txs[k])
    requires SettledOk(c0, texts, w, e, list, s) && CallOk(c0, texts, w, e, list, s, call)
    ensures CallOk(c0, texts, w, e, list, AfterCommit(s, k), call)
  {
    hide TxOk, Origin, Consistent, VariantsOf, Assigned;
    var s' := AfterCommit(s, k);
    if e in s.committed.experiments {
      VariantsNeverChange(s.committed, s.issued, s.txs[k], x, e);
    }
    if call.stage.Unassigned? && w in s'.committed.users && w !in s.committed.users {
      UsersAfterCommit(s.committed, s.issued, s.txs[k], x, w);
    }
  }

  // ---------------------------------------------------------------- calls

  ghost predicate NewbornsNotLive(s: State) {
    forall k :: k in s.txs && s.txs[k].mutation.CreateUser? && TargetOf(s.txs[k]).Some? ==>
      TargetOf(s.txs[k]).value !in s.committed.users
  }

  /** The state after an assignment is stored. */
  function Stored(s: State, u: Uuid, x: Uuid, v: Uuid): State {
    s.(committed := s.committed.(assignments := s.committed.assignments[(u, x) := v]),
       settled := if (u, x) in s.settled then s.settled else s.settled[(u, x) := v])
  }

  lemma SettledAfterStored(
    c0: Tables, texts: set<IdText>, w: Uuid, e: Uuid, list: seq<Variant>, s: State, u: Uuid, x: Uuid, v: Uuid)
    requires SettledOk(c0, texts, w, e, list, s)
    requires u in s.committed.users && s.committed.users.Keys <= s.issued && NewbornsNotLive(s)
    requires x == e && u == w ==>
      && Origin(c0, s.hash, texts, w, e, list, v)
      && ((w, e) in s.settled ==> s.settled[(w, e)] == v)
    ensures SettledOk(c0, texts, w, e, list, Stored(s, u, x, v))
  {
    hide Origin;
  }

  /** Storing the computed variant repeats what is settled, if anything is. */
  lemma ComputedMatchesSettled(
    c0: Tables, texts: set<IdText>, w: Uuid, e: Uuid, list: seq<Variant>, s: State, user: IdText)
    requires SettledOk(c0, texts, w, e, list, s) && Agree(s.hash, texts, w, e, list)
    requires user in texts && NamesUser(user, w) && list != [] && (w, e) !in c0.assignments
    ensures var v := Assigned(s.hash, user, e, list).id;
      && Origin(c0, s.hash, texts, w, e, list, v)
      && ((w, e) in s.settled ==> s.settled[(w, e)] == v)
  {
    hide Assigned, NotNewborn;
    if (w, e) in s.settled {
      assert Origin(c0, s.hash, texts, w, e, list, s.settled[(w, e)]);
    }
  }

  lemma CallAfterStored(
    c0: Tables, texts: set<IdText>, w: Uuid, e: Uuid, list: seq<Variant>, s: State, u: Uuid, x: Uuid, v: Uuid,
    call: Call)
    requires CallOk(c0, texts, w, e, list, s, call)
    ensures CallOk(c0, texts, w, e, list, Stored(s, u, x, v), call)
  {
    hide Assigned;
  }

  lemma OneCallChanges(
    c0: Tables, texts: set<IdText>, w: Uuid, e: Uuid, list: seq<Variant>, s: State, n: nat, call: Call)
    requires StickyOk(c0, texts, w, e, list, s) && CallOk(c0, texts, w, e, list, s, call)
    ensures StickyOk(c0, texts, w, e, list, s.(calls := s.calls[n := call]))
  {
    hide Listed, Origin, NotNewborn, Assigned;
    var s' := s.(calls := s.calls[n := call]);
    forall m | m in s'.calls
      ensures CallOk(c0, texts, w, e, list, s', s'.calls[m])
    {
      assert m != n ==> CallOk(c0, texts, w, e, list, s, s.calls[m]);
    }
  }

  lemma StickyAfterStored(
    c0: Tables, texts: set<IdText>, w: Uuid, e: Uuid, list: seq<Variant>, s: State, u: Uuid, x: Uuid, v: Uuid)
    requires StickyOk(c0, texts, w, e, list, s)
    requires u in s.committed.users && s.committed.users.Keys <= s.issued && NewbornsNotLive(s)
    requires x == e && u == w ==>
      && Origin(c0, s.hash, texts, w, e, list, v)
      && ((w, e) in s.settled ==> s.settled[(w, e)] == v)
    ensures StickyOk(c0, texts, w, e, list, Stored(s, u, x, v))
  {
    hide Origin, SettledOk, CallOk;
    SettledAfterStored(c0, texts, w, e, list, s, u, x, v);
    forall n | n in s.calls
      ensures CallOk(c0, texts, w, e, list, Stored(s, u, x, v), s.calls[n])
    {
      CallAfterStored(c0, texts, w, e, list, s, u, x, v, s.calls[n]);
    }
  }

  lemma StoreKeepsSticky(c0: Tables, texts: set<IdText>, w: Uuid, e: Uuid, list: seq<Variant>, s: State, n: nat)
    requires n in s.calls && s.calls[n].stage.Unassigned?
    requires StickyOk(c0, texts, w, e, list, s) && Agree(s.hash, texts, w, e, list)
    requires s.committed.users.Keys <= s.issued && NewbornsNotLive(s)
    ensures StickyOk(c0, texts, w, e, list, AfterStore(s, n))
  {
    hide Assigned, Origin, SettledOk, Agree, NewbornsNotLive, Listed;
    var call := s.calls[n];
    assert CallOk(c0, texts, w, e, list, s, call);
    var x, v := call.stage.experiment, call.stage.variant;
    var s' := AfterStore(s, n);
    var parsed := ParseUuid(call.user);
    if parsed.Some? && Upsert(s.committed, parsed.value, x, v.id).Success? {
      var u := parsed.value;
      if x == e && u == w {
        ComputedMatchesSettled(c0, texts, w, e, list, s, call.user);
        AssignedIsListed(s.hash, call.user, e, list);
      }
      StickyAfterStored(c0, texts, w, e, list, s, u, x, v.id);
      OneCallChanges(c0, texts, w, e, list, Stored(s, u, x, v.id), n, s'.calls[n]);
    } else {
      OneCallChanges(c0, texts, w, e, list, s, n, s'.calls[n]);
    }
  }

  lemma AssignedIsListed(hash: Hash, user: IdText, e: Uuid, list: seq<Variant>)
    requires list != []
    ensures Assigned(hash, user, e, list) in list
  {
  }

  // ---------------------------------------------------------------- all steps

  lemma LoadKeepsSticky(c0: Tables, texts: set<IdText>, w: Uuid, e: Uuid, list: seq<Variant>, s: State, step: Step)
    requires StickyOk(c0, texts, w, e, list, s) && Enabled(s, step)
    requires step.LoadExperiment? || step.LoadVariants? || step.LoadAssignment? || step.CallFault?
    ensures StickyOk(c0, texts, w, e, list, After(s, step))
  {
    hide Assigned, Origin, NotNewborn, VariantsOf, FindExperiment;
    var n, s' := step.call, After(s, step);
    assert CallOk(c0, texts, w, e, list, s, s.calls[n]);
    assert s' == s.(calls := s.calls[n := s'.calls[n]]);
    OneCallChanges(c0, texts, w, e, list, s, n, s'.calls[n]);
  }

  lemma StickyFrame(c0: Tables, texts: set<IdText>, w: Uuid, e: Uuid, list: seq<Variant>, s: State, s': State)
    requires StickyOk(c0, texts, w, e, list, s)
    requires s'.committed == s.committed && s'.calls == s.calls && s'.settled == s.settled && s'.hash == s.hash
    requires s.issued <= s'.issued
    requires (w, e) in s.settled && NotNewborn(s.txs, w) ==> NotNewborn(s'.txs, w)
    ensures StickyOk(c0, texts, w, e, list, s')
  {
    hide Origin, VariantsOf, Assigned, NotNewborn;
  }

  lemma TxStepKeepsSticky(c0: Tables, texts: set<IdText>, w: Uuid, e: Uuid, list: seq<Variant>, s: State, step: Step)
    requires Good(s) && StickyOk(c0, texts, w, e, list, s) && Enabled(s, step)
    requires step.Open? || step.Read? || step.Execute? || step.Log? || step.Fault?
    ensures StickyOk(c0, texts, w, e, list, After(s, step))
  {
    hide Origin, VariantsOf, Assigned, NotNewborn, After, Good, Enabled, CallOk, Listed;
    OnlyTxsChange(s, step);
    if (w, e) in s.settled && NotNewborn(s.txs, w) {
      NewbornsAreFresh(s, step, w);
    }
    StickyFrame(c0, texts, w, e, list, s, After(s, step));
  }

  lemma OnlyTxsChange(s: State, step: Step)
    requires Enabled(s, step)
    requires step.Open? || step.Read? || step.Execute? || step.Log? || step.Fault?
    ensures var s' := After(s, step);
      && s'.committed == s.committed && s'.calls == s.calls && s'.settled == s.settled && s'.hash == s.hash
      && s.issued <= s'.issued
  {
  }

  lemma NewbornsAreFresh(s: State, step: Step, u: Uuid)
    requires Good(s) && Enabled(s, step) && NotNewborn(s.txs, u) && u in s.issued
    requires step.Open? || step.Read? || step.Execute? || step.Log? || step.Fault?
    ensures NotNewborn(After(s, step).txs, u)
  {
    hide Isolated, AllViewsConsistent, Consistent, View, Exec, Record, Admit, RunningOk, IdsOf;
    var k := step.k;
    if k in s.txs {
      assert TxOk(s.committed, s.issued, s.txs[k]);
      if step.Read? {
        DecideCreatesUser(s.committed, s.txs[k].mutation);
      } else if step.Execute? && s.txs[k].phase.Inserting? {
        OpensMints(s.txs[k].mutation, s.txs[k].phase.insert);
      }
    }
  }

  lemma DecideCreatesUser(c: Tables, m: Mutation)
    ensures m.CreateUser? && Decide(c, m).Success? ==> Decide(c, m).value.NewRow?
  {
  }

  lemma GoodNewborns(s: State)
    requires Good(s)
    ensures NewbornsNotLive(s) && s.committed.users.Keys <= s.issued
  {
    hide Isolated, AllViewsConsistent, Consistent, View, Scheduled, Touches;
    forall k | k in s.txs && s.txs[k].mutation.CreateUser? && TargetOf(s.txs[k]).Some?
      ensures TargetOf(s.txs[k]).value !in s.committed.users
    {
      assert TxOk(s.committed, s.issued, s.txs[k]);
    }
  }

  lemma StickyAfterStep(c0: Tables, texts: set<IdText>, w: Uuid, e: Uuid, list: seq<Variant>, s: State, step: Step)
    requires Good(s) && Enabled(s, step)
    requires StickyOk(c0, texts, w, e, list, s) && Agree(s.hash, texts, w, e, list)
    requires AskOk(step, texts, w)
    requires Listed(e, list, After(s, step).committed)
    ensures StickyOk(c0, texts, w, e, list, After(s, step))
  {
    hide Good, Agree, SettledOk;
    match step
    case Commit(k) =>
      var x := s.txs[k].phase.target;
      GoodParts(s, k);
      hide Consistent, TxOk, CallOk, Listed;
      SettledAfterCommit(c0, texts, w, e, list, s, k, x);
      forall n | n in s.calls
        ensures CallOk(c0, texts, w, e, list, AfterCommit(s, k), s.calls[n])
      {
        CallAfterCommit(c0, texts, w, e, list, s, k, x, s.calls[n]);
      }
    case Store(n) =>
      GoodNewborns(s);
      hide Listed, CallOk, NewbornsNotLive;
      StoreKeepsSticky(c0, texts, w, e, list, s, n);
    case Ask(n, user, key, environment) =>
      OneCallChanges(c0, texts, w, e, list, s, n, After(s, step).calls[n]);
    case LoadExperiment(_) => LoadKeepsSticky(c0, texts, w, e, list, s, step);
    case LoadVariants(_) => LoadKeepsSticky(c0, texts, w, e, list, s, step);
    case LoadAssignment(_) => LoadKeepsSticky(c0, texts, w, e, list, s, step);
    case CallFault(_) => LoadKeepsSticky(c0, texts, w, e, list, s, step);
    case _ => TxStepKeepsSticky(c0, texts, w, e, list, s, step);
  }

  lemma GoodParts(s: State, k: nat)
    requires Good(s) && k in s.txs
    ensures Consistent(s.committed) && TxOk(s.committed, s.issued, s.txs[k])
  {
  }

  // ---------------------------------------------------------------- whole runs

  lemma HashStays(s: State, step: Step)
    requires Enabled(s, step)
    ensures After(s, step).hash == s.hash
  {
  }

  /** Backwards: the list an experiment has in the end it had ever since it was committed. */
  lemma ListStays(s: State, step: Step, e: Uuid, list: seq<Variant>)
    requires Good(s) && Enabled(s, step)
    requires Listed(e, list, After(s, step).committed)
    ensures Listed(e, list, s.committed)
  {
    hide Isolated, AllViewsConsistent, TxOk, View, VariantsOf, Consistent;
    if e in s.committed.experiments {
      if step.Commit? {
        assert TxOk(s.committed, s.issued, s.txs[step.k]);
        VariantsNeverChange(s.committed, s.issued, s.txs[step.k], s.txs[step.k].phase.target, e);
      } else {
        SharesIgnoreAssignments(s, step);
      }
    }
  }

  lemma StickyAtStart(texts: set<IdText>, w: Uuid, e: Uuid, list: seq<Variant>, s: State)
    requires Initial(s) && Listed(e, list, s.committed)
    ensures StickyOk(s.committed, texts, w, e, list, s)
  {
  }

  lemma {:induction false} StickyAlways(
    s: State, steps: seq<Step>, texts: set<IdText>, w: Uuid, e: Uuid, list: seq<Variant>)
    requires Initial(s) && Legal(s, steps) && Asks(steps, texts, w)
    requires Listed(e, list, Final(s, steps).committed) && Agree(s.hash, texts, w, e, list)
    ensures StickyOk(s.committed, texts, w, e, list, Final(s, steps)) && Final(s, steps).hash == s.hash
    decreases |steps|
  {
    if steps == [] {
      StickyAtStart(texts, w, e, list, s);
    } else {
      var init, step := steps[..|steps| - 1], steps[|steps| - 1];
      var f := Final(s, init);
      GoodAlways(s, init);
      hide Good, StickyOk, Agree, Listed, Enabled;
      assert forall i :: 0 <= i < |init| ==> init[i] == steps[i];
      ListStays(f, step, e, list);
      StickyAlways(s, init, texts, w, e, list);
      HashStays(f, step);
      StickyAfterStep(s.committed, texts, w, e, list, f, step);
    }
  }

  /** All answered calls for one user and experiment have one variant. */
  ghost predicate OneAnswer(s: State, u: Uuid, e: Uuid) {
    forall i, j :: i in s.calls && j in s.calls && AnswersFor(s.calls[i], u, e) && AnswersFor(s.calls[j], u, e) ==>
      s.calls[i].stage.variant == s.calls[j].stage.variant
  }

  predicate AnswersFor(call: Call, u: Uuid, e: Uuid) {
    call.stage.Answered? && call.stage.experiment == e && NamesUser(call.user, u)
  }

  lemma ListedIdsDiffer(c: Tables, e: Uuid, v: Variant, w: Variant)
    requires v in VariantsOf(c.variants, e) && w in VariantsOf(c.variants, e) && v.id == w.id
    ensures v == w
  {
  }

  /**
   Stickiness under concurrency: whatever creates, deletions and calls interleave, all
   answers for a user and experiment are one variant, if the texts in which callers name
   this user agree on it; one text always does. Other users may be named in any texts.
   */
  lemma CallersGetOneVariant(s: State, steps: seq<Step>, texts: set<IdText>, u: Uuid, e: Uuid)
    requires Initial(s) && Legal(s, steps) && Asks(steps, texts, u)
    requires Agree(s.hash, texts, u, e, VariantsOf(Final(s, steps).committed.variants, e))
    ensures OneAnswer(Final(s, steps), u, e)
  {
    hide Initial, Legal, Final, Asks, Agree, SettledOk, VariantsOf, CallOk, NamesUser;
    var f := Final(s, steps);
    var list := VariantsOf(f.committed.variants, e);
    StickyAlways(s, steps, texts, u, e, list);
    forall i, j | i in f.calls && j in f.calls && AnswersFor(f.calls[i], u, e) && AnswersFor(f.calls[j], u, e)
      ensures f.calls[i].stage.variant == f.calls[j].stage.variant
    {
      AnswerIsSettled(s.committed, texts, u, e, list, f, f.calls[i]);
      AnswerIsSettled(s.committed, texts, u, e, list, f, f.calls[j]);
      ListedIdsDiffer(f.committed, e, f.calls[i].stage.variant, f.calls[j].stage.variant);
    }
  }

  lemma AnswerIsSettled(
    c0: Tables, texts: set<IdText>, u: Uuid, e: Uuid, list: seq<Variant>, s: State, call: Call)
    requires CallOk(c0, texts, u, e, list, s, call) && AnswersFor(call, u, e)
    ensures call.stage.variant in list && (u, e) in s.settled && s.settled[(u, e)] == call.stage.variant.id
  {
  }

  /** The stored row keeps its value as long as the user exists, if the texts that name this user agree. */
  lemma {:induction false} RowNeverChanges(
    s: State, steps: seq<Step>, n: nat, texts: set<IdText>, u: Uuid, e: Uuid)
    requires Initial(s) && Legal(s, steps) && Asks(steps, texts, u)
    requires Agree(s.hash, texts, u, e, VariantsOf(Final(s, steps).committed.variants, e))
    requires n <= |steps| && Legal(s, steps[..n])
    requires (u, e) in Final(s, steps[..n]).committed.assignments
    requires u in Final(s, steps).committed.users
    ensures var before, after := Final(s, steps[..n]).committed, Final(s, steps).committed;
      (u, e) in after.assignments && after.assignments[(u, e)] == before.assignments[(u, e)]
  {
    var list := VariantsOf(Final(s, steps).committed.variants, e);
    StickyAlways(s, steps, texts, u, e, list);
    ListStaysThrough(s, steps, n, e, list);
    assert forall i :: 0 <= i < n ==> steps[..n][i] == steps[i];
    StickyAlways(s, steps[..n], texts, u, e, list);
    SettledStays(s, steps, n);
    hide Legal, Final, CallOk, Listed, Origin, NotNewborn;
  }

  lemma {:induction false} ListStaysThrough(s: State, steps: seq<Step>, n: nat, e: Uuid, list: seq<Variant>)
    requires Initial(s) && Legal(s, steps) && n <= |steps| && Legal(s, steps[..n])
    requires Listed(e, list, Final(s, steps).committed)
    ensures Listed(e, list, Final(s, steps[..n]).committed)
    decreases |steps|
  {
    if n == |steps| {
      assert steps[..n] == steps;
    } else {
      var init := steps[..|steps| - 1];
      assert init[..n] == steps[..n];
      GoodAlways(s, init);
      ListStays(Final(s, init), steps[|steps| - 1], e, list);
      ListStaysThrough(s, init, n, e, list);
    }
  }

  lemma SettledGrows(s: State, step: Step)
    requires Enabled(s, step)
    ensures forall a :: a in s.settled ==> a in After(s, step).settled && After(s, step).settled[a] == s.settled[a]
  {
  }

  lemma {:induction false} SettledStays(s: State, steps: seq<Step>, n: nat)
    requires Legal(s, steps) && n <= |steps| && Legal(s, steps[..n])
    ensures var before, after := Final(s, steps[..n]).settled, Final(s, steps).settled;
      forall a :: a in before ==> a in after && after[a] == before[a]
    decreases |steps|
  {
    if n == |steps| {
      assert steps[..n] == steps;
    } else {
      var init := steps[..|steps| - 1];
      assert init[..n] == steps[..n];
      SettledStays(s, init, n);
      SettledGrows(Final(s, init), steps[|steps| - 1]);
    }
  }
}
