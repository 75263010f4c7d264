/** Every visible experiment has variants whose weights are non-negative and sum to exactly 100. */
module Shares {
  import opened Wrappers
  import opened Schema
  import opened Statements
  import opened Weights
  import opened Protocol
  import opened Transactions
  import opened Interleaving
  import opened Isolation
  import opened Reachable

  // ---------------------------------------------------------------- sums over sets of rows

  function SumOver(ids: set<Uuid>, rows: map<Uuid, VariantRow>): int
    requires ids <= rows.Keys
    decreases |ids|
  {
    if ids == {} then 0
    else
      var m := Least(ids);
      rows[m].weight + SumOver(ids - {m}, rows)
  }

  lemma {:induction false} SumOverAdd(ids: set<Uuid>, x: Uuid, rows: map<Uuid, VariantRow>)
    requires ids <= rows.Keys && x in rows && x !in ids
    ensures SumOver(ids + {x}, rows) == SumOver(ids, rows) + rows[x].weight
    decreases |ids|
  {
    var all := ids + {x};
    var m := Least(all);
    if m == x {
      assert all - {x} == ids;
    } else {
      assert m == Least(ids);
      SumOverAdd(ids - {m}, x, rows);
      assert all - {m} == (ids - {m}) + {x};
    }
  }

  lemma {:induction false} SumOverSame(ids: set<Uuid>, rows: map<Uuid, VariantRow>, rows': map<Uuid, VariantRow>)
    requires ids <= rows.Keys && ids <= rows'.Keys
    requires forall i :: i in ids ==> rows[i] == rows'[i]
    ensures SumOver(ids, rows) == SumOver(ids, rows')
    decreases |ids|
  {
    if ids != {} {
      SumOverSame(ids - {Least(ids)}, rows, rows');
    }
  }

  lemma {:induction false} SumOfSorted(ids: set<Uuid>, rows: map<Uuid, VariantRow>, ws: seq<int>)
    requires ids <= rows.Keys && |ws| == |Sorted(ids)|
    requires forall i :: 0 <= i < |ws| ==> Sorted(ids)[i] in rows && ws[i] == rows[Sorted(ids)[i]].weight
    ensures Sum(ws) == SumOver(ids, rows)
    decreases |ids|
  {
    if ids != {} {
      var m := Least(ids);
      assert Sorted(ids) == [m] + Sorted(ids - {m});
      forall i | 0 <= i < |ws[1..]|
        ensures Sorted(ids - {m})[i] in rows && ws[1..][i] == rows[Sorted(ids - {m})[i]].weight
      {
        assert Sorted(ids)[i + 1] == Sorted(ids - {m})[i];
      }
      SumOfSorted(ids - {m}, rows, ws[1..]);
      SumHead(ws);
    }
  }

  /** The sum over the store's list is the sum over the rows. */
  lemma ListSum(variants: map<Uuid, VariantRow>, e: Uuid)
    ensures Sum(RowWeights(VariantsOf(variants, e))) == SumOver(VariantIds(variants, e), variants)
  {
    var ids := Sorted(VariantIds(variants, e));
    assert forall i :: 0 <= i < |ids| ==> ids[i] in VariantIds(variants, e);
    SumOfSorted(VariantIds(variants, e), variants, RowWeights(VariantsOf(variants, e)));
  }

  // ---------------------------------------------------------------- the invariant

  /** The body limit of the server keeps a variant list far below the wrap-around count. */
  predicate WellSized(m: Mutation) {
    m.CreateExperiment? ==> |m.newExperiment.variants| < WRAP_COUNT
  }

  /** Every mutation of the run keeps within the limit. */
  ghost predicate SmallBodies(steps: seq<Step>) {
    forall i :: 0 <= i < |steps| && steps[i].Open? ==> WellSized(steps[i].mutation)
  }

  /** The variants of an experiment share out exactly 100. */
  ghost predicate SharesOut(c: Tables, e: Uuid) {
    var list := VariantsOf(c.variants, e);
    list != [] && NonNegative(RowWeights(list)) && Sum(RowWeights(list)) == WEIGHT_SUM
  }

  ghost predicate Weighted(c: Tables) {
    forall e :: e in c.experiments ==> SharesOut(c, e)
  }

  type Written = map<Uuid, Option<VariantRow>>

  function NewVariants(written: Written): map<Uuid, VariantRow> {
    map v | v in written && written[v].Some? :: written[v].value
  }

  /** The rows written so far weigh what the first i inputs weigh, and each fits its column. */
  ghost predicate Weighs(ws: seq<int>, written: Written, i: nat) {
    && i <= |ws|
    && |written.Keys| == i
    && NewVariants(written).Keys == written.Keys
    && SumOver(written.Keys, NewVariants(written)) == Sum(ws[..i])
    && (forall v :: v in NewVariants(written) ==> NewVariants(written)[v].weight >= 0)
    && forall j :: 0 <= j < i ==> ws[j] <= MAX_INTEGER
  }

  /** All inputs but those still to do are inserted. */
  ghost predicate Persisted(input: CreateExperimentInput, written: Written, x: Uuid, todo: seq<Statement>) {
    && |input.variants| < WRAP_COUNT
    && Verdict(WeightsOf(input.variants)).Success?
    && |todo| <= |input.variants|
    && todo == VariantInserts(x, input.variants)[|input.variants| - |todo|..]
    && Weighs(WeightsOf(input.variants), written, |input.variants| - |todo|)
  }

  ghost predicate SharesProgress(tx: Tx) {
    && WellSized(tx.mutation)
    && (tx.mutation.CreateExperiment? ==>
          match tx.phase
          case Running(x, todo) => Persisted(tx.mutation.newExperiment, tx.delta.variants, x, todo)
          case Logged(x) => Persisted(tx.mutation.newExperiment, tx.delta.variants, x, [])
          case _ => true)
  }

  ghost predicate SharesOk(s: State) {
    && Weighted(s.committed)
    && forall k :: k in s.txs ==> SharesProgress(s.txs[k])
  }

  lemma PersistedAtStart(input: CreateExperimentInput, x: Uuid)
    requires |input.variants| < WRAP_COUNT && Verdict(WeightsOf(input.variants)).Success?
    ensures Persisted(input, map[], x, VariantInserts(x, input.variants))
  {
    assert VariantInserts(x, input.variants)[0..] == VariantInserts(x, input.variants);
    assert NewVariants(map[]) == map[];
    assert WeightsOf(input.variants)[..0] == [];
  }

  lemma NewVariantsSet(written: Written, id: Uuid, row: VariantRow)
    ensures NewVariants(written[id := Some(row)]) == NewVariants(written)[id := row]
  {
  }

  lemma WeighsOneMore(ws: seq<int>, written: Written, i: nat, id: Uuid, row: VariantRow)
    requires Weighs(ws, written, i) && i < |ws| && id !in written
    requires row.weight == ws[i] && 0 <= ws[i] <= MAX_INTEGER
    ensures Weighs(ws, written[id := Some(row)], i + 1)
  {
    var rows := NewVariants(written);
    NewVariantsSet(written, id, row);
    hide NewVariants, SumOver, Sum;
    assert written[id := Some(row)].Keys == written.Keys + {id};
    SumOneMore(written.Keys, rows, id, row);
    SumSnoc(ws, i);
  }

  lemma SumOneMore(ids: set<Uuid>, rows: map<Uuid, VariantRow>, id: Uuid, row: VariantRow)
    requires ids == rows.Keys && id !in ids
    ensures SumOver(ids + {id}, rows[id := row]) == SumOver(ids, rows) + row.weight
  {
    hide SumOver;
    SumOverSame(ids, rows, rows[id := row]);
    SumOverAdd(ids, id, rows[id := row]);
  }

  lemma SumSnoc(ws: seq<int>, i: nat)
    requires i < |ws|
    ensures Sum(ws[..i + 1]) == Sum(ws[..i]) + ws[i]
  {
    assert ws[..i + 1][..i] == ws[..i];
  }

  lemma InsertedFits(t: Tables, row: VariantRow, id: Uuid)
    requires Exec(t, InsertVariant(row), id).Applied?
    ensures 0 <= row.weight <= MAX_INTEGER
  {
  }

  lemma PersistedAfterInsert(
    input: CreateExperimentInput, t: Tables, written: Written, x: Uuid, todo: seq<Statement>, id: Uuid)
    requires Persisted(input, written, x, todo) && todo != []
    requires id !in written && Exec(t, todo[0], id).Applied?
    ensures todo[0].InsertVariant?
    ensures Persisted(input, written[id := Some(todo[0].variant)], x, todo[1..])
  {
    hide Weighs, Verdict, Exec;
    var i := |input.variants| - |todo|;
    var row := VariantRow(x, input.variants[i].name, input.variants[i].weight);
    var all := VariantInserts(x, input.variants);
    assert todo[0] == all[i] == InsertVariant(row);
    assert todo[1..] == all[i + 1..];
    InsertedFits(t, row, id);
    WeighsOneMore(WeightsOf(input.variants), written, i, id, row);
  }

  lemma PersistedSum(input: CreateExperimentInput, written: Written, x: Uuid)
    requires Persisted(input, written, x, [])
    ensures NewVariants(written).Keys == written.Keys && |written.Keys| > 0
    ensures SumOver(written.Keys, NewVariants(written)) == WEIGHT_SUM
    ensures forall v :: v in written ==> NewVariants(written)[v].weight >= 0
  {
    var ws := WeightsOf(input.variants);
    assert ws[..|ws|] == ws;
    AcceptedSumIsExact(ws);
  }

  lemma NewExperimentIds(c: Tables, issued: set<Uuid>, tx: Tx, x: Uuid)
    requires Consistent(c) && TxOk(c, issued, tx) && tx.phase == Logged(x) && tx.mutation.CreateExperiment?
    ensures var v := View(c, tx.delta);
      && VariantIds(v.variants, x) == tx.delta.variants.Keys
      && forall i :: i in tx.delta.variants ==>
           i in v.variants && i in NewVariants(tx.delta.variants)
           && v.variants[i] == NewVariants(tx.delta.variants)[i]
  {
    hide Scheduled, UsersOk, RulesOk, AssignmentsOk, UniqueBy, AuditFor;
    assert OnlyExperiment(c, tx.delta, x) && x !in c.experiments;
  }

  lemma ListShares(variants: map<Uuid, VariantRow>, x: Uuid)
    requires VariantIds(variants, x) != {}
    requires forall v :: v in VariantIds(variants, x) ==> variants[v].weight >= 0
    ensures VariantsOf(variants, x) != [] && NonNegative(RowWeights(VariantsOf(variants, x)))
  {
    var ids := Sorted(VariantIds(variants, x));
    assert forall i :: 0 <= i < |ids| ==> ids[i] in VariantIds(variants, x);
  }

  lemma PersistedSharesOut(c: Tables, issued: set<Uuid>, tx: Tx, x: Uuid)
    requires Consistent(c) && TxOk(c, issued, tx) && tx.phase == Logged(x) && tx.mutation.CreateExperiment?
    requires SharesProgress(tx)
    ensures SharesOut(View(c, tx.delta), x)
  {
    hide Consistent, TxOk, View, Persisted, VariantsOf;
    var written, variants := tx.delta.variants, View(c, tx.delta).variants;
    NewExperimentIds(c, issued, tx, x);
    PersistedSum(tx.mutation.newExperiment, written, x);
    SumOverSame(written.Keys, NewVariants(written), variants);
    ListShares(variants, x);
    ListSum(variants, x);
  }

  lemma SameVariantsList(c: Tables, c': Tables, e: Uuid)
    requires forall v :: (v in c.variants && c.variants[v].experiment == e) ==>
      v in c'.variants && c'.variants[v] == c.variants[v]
    requires forall v :: (v in c'.variants && c'.variants[v].experiment == e) ==>
      v in c.variants && c'.variants[v] == c.variants[v]
    ensures VariantsOf(c.variants, e) == VariantsOf(c'.variants, e)
  {
    assert VariantIds(c.variants, e) == VariantIds(c'.variants, e);
    var ids := Sorted(VariantIds(c.variants, e));
    forall i | 0 <= i < |ids|
      ensures ids[i] in c.variants && ids[i] in c'.variants && c.variants[ids[i]] == c'.variants[ids[i]]
    {
      assert ids[i] in VariantIds(c.variants, e);
    }
  }

  /** The variants of a committed experiment never change. */
  lemma VariantsNeverChange(c: Tables, issued: set<Uuid>, tx: Tx, x: Uuid, e: Uuid)
    requires Consistent(c) && TxOk(c, issued, tx) && tx.phase == Logged(x) && e in c.experiments
    ensures e in View(c, tx.delta).experiments
    ensures VariantsOf(View(c, tx.delta).variants, e) == VariantsOf(c.variants, e)
  {
    hide Scheduled, UsersOk, RulesOk, AssignmentsOk, UniqueBy, AuditFor, VariantsOf, VariantsOk;
    assert Touches(c, tx.delta, EntityOf(tx.mutation), x) && Standing(c, tx.mutation, tx.delta, x);
    SameVariantsList(c, View(c, tx.delta), e);
  }

  lemma SharesAfterCommit(s: State, k: nat, x: Uuid)
    requires k in s.txs && s.txs[k].phase == Logged(x)
    requires Good(s) && SharesOk(s)
    ensures SharesOk(AfterCommit(s, k))
  {
    hide Isolated, AllViewsConsistent, Consistent, TxOk, View, Persisted;
    var tx, c := s.txs[k], s.committed;
    var c' := AfterCommit(s, k).committed;
    assert TxOk(c, s.issued, tx) && SharesProgress(tx);
    forall e | e in c'.experiments
      ensures SharesOut(c', e)
    {
      if e in c.experiments {
        VariantsNeverChange(c, s.issued, tx, x, e);
        assert SharesOut(c, e);
      } else {
        NewExperimentIsTarget(c, s.issued, tx, x, e);
        PersistedSharesOut(c, s.issued, tx, x);
      }
    }
  }

  lemma NewExperimentIsTarget(c: Tables, issued: set<Uuid>, tx: Tx, x: Uuid, e: Uuid)
    requires TxOk(c, issued, tx) && tx.phase == Logged(x)
    requires e in View(c, tx.delta).experiments && e !in c.experiments
    ensures tx.mutation.CreateExperiment? && e == x
  {
    hide Scheduled, Standing, AuditFor;
  }

  lemma ProgressAfterStatement(c: Tables, issued: set<Uuid>, tx: Tx, id: Uuid, missed: set<Uuid>)
    requires TxOk(c, issued, tx) && SharesProgress(tx) && Waiting(tx)
    requires Mints(NextStatement(tx)) ==> id !in issued
    ensures SharesProgress(AfterStatement(c, tx, id, missed))
  {
    hide View, Persisted, Standing;
    var stmt := NextStatement(tx);
    if tx.mutation.CreateExperiment? && Exec(View(c, tx.delta), stmt, id).Applied? {
      var input := tx.mutation.newExperiment;
      if tx.phase.Inserting? {
        assert Opens(tx.mutation, stmt);
        RecordWithoutMissing(c, tx.delta, stmt, id, missed);
        PersistedAtStart(input, id);
      } else {
        assert OnTarget(tx.mutation, tx.phase.target, stmt);
        RecordWithoutMissing(c, tx.delta, stmt, id, missed);
        PersistedAfterInsert(input, View(c, tx.delta), tx.delta.variants, tx.phase.target, tx.phase.todo, id);
      }
    }
  }

  lemma SharesAfterOther(s: State, step: Step)
    requires Good(s) && SharesOk(s) && Enabled(s, step) && !step.Commit?
    requires step.Open? ==> WellSized(step.mutation)
    ensures SharesOk(After(s, step))
  {
    hide Consistent, Isolated, AllViewsConsistent, View, Exec, TxOk;
    hide SharesOut, Persisted, Decide, Admit, AfterStatement;
    var s' := After(s, step);
    assert s'.committed.variants == s.committed.variants && s'.committed.experiments == s.committed.experiments by {
      SharesIgnoreAssignments(s, step);
    }
    forall k | k in s'.txs
      ensures SharesProgress(s'.txs[k])
    {
      if step.Execute? && step.k == k {
        assert TxOk(s.committed, s.issued, s.txs[k]);
        ProgressAfterStatement(s.committed, s.issued, s.txs[k], step.id, step.missed);
      } else if step.Read? && step.k == k {
        DecideExperiment(s.committed, s.txs[k].mutation);
      }
    }
    forall e | e in s'.committed.experiments
      ensures SharesOut(s'.committed, e)
    {
      assert SharesOut(s.committed, e);
      SharesOutIgnoresRest(s.committed, s'.committed, e);
    }
  }

  lemma SharesOutIgnoresRest(c: Tables, c': Tables, e: Uuid)
    requires c'.variants == c.variants && SharesOut(c, e)
    ensures SharesOut(c', e)
  {
  }

  lemma SharesIgnoreAssignments(s: State, step: Step)
    requires Enabled(s, step) && !step.Commit?
    ensures After(s, step).committed.variants == s.committed.variants
    ensures After(s, step).committed.experiments == s.committed.experiments
  {
  }

  lemma DecideExperiment(c: Tables, m: Mutation)
    ensures m.CreateExperiment? && Decide(c, m).Success? ==> Decide(c, m).value.NewRow?
  {
  }

  /**
   Whatever interleaves with a create, the experiments one can see have variants, and their
   weights sum to exactly 100 although validation adds them in a wrapping machine int.
   */
  lemma {:induction false} VisibleWeightsSumTo100(s: State, steps: seq<Step>)
    requires Initial(s) && Weighted(s.committed) && Legal(s, steps) && SmallBodies(steps)
    ensures SharesOk(Final(s, steps)) && Weighted(Final(s, steps).committed)
    decreases |steps|
  {
    if steps != [] {
      var init, step := steps[..|steps| - 1], steps[|steps| - 1];
      VisibleWeightsSumTo100(s, init);
      GoodAlways(s, init);
      var f := Final(s, init);
      hide Good, SharesOk;
      if step.Commit? {
        SharesAfterCommit(f, step.k, f.txs[step.k].phase.target);
      } else {
        SharesAfterOther(f, step);
      }
    }
  }
}
