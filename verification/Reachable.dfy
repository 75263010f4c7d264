/** Every step of the running service keeps the isolation invariant. */
module Reachable {
  import opened Wrappers
  import opened Schema
  import opened Statements
  import opened Auth
  import opened Protocol
  import opened Transactions
  import opened Merging
  import opened Interleaving
  import opened Isolation

  lemma CompatibleWithNothing(d: Delta)
    ensures Compatible(NO_WRITES, d) && Compatible(d, NO_WRITES)
  {
  }

  lemma CompatibleSymmetric(d1: Delta, d2: Delta)
    requires Compatible(d1, d2)
    ensures Compatible(d2, d1)
  {
  }

  /** One transaction changes; ids are only added. */
  lemma GoodAfterTx(s: State, k: nat, tx: Tx, issued: set<Uuid>)
    requires Good(s) && s.issued <= issued
    requires TxOk(s.committed, issued, tx) && Consistent(View(s.committed, tx.delta))
    requires forall j :: j in s.txs && j != k ==> Apart(tx, s.txs[j])
    ensures Good(s.(txs := s.txs[k := tx], issued := issued))
  {
    hide Consistent, Compatible, View;
    var txs := s.txs[k := tx];
    forall i, j | i in txs && j in txs && i != j
      ensures Apart(txs[i], txs[j])
    {
      if j == k {
        assert Apart(tx, s.txs[i]);
        CompatibleSymmetric(tx.delta, s.txs[i].delta);
      } else if i != k {
        assert Apart(s.txs[i], s.txs[j]);
      }
    }
  }

  /** A transaction that ends without commit, or has not begun to write, disturbs nobody. */
  lemma GoodAfterIdle(s: State, k: nat, tx: Tx)
    requires Good(s)
    requires tx.delta == NO_WRITES && TxOk(s.committed, s.issued, tx)
    requires forall j :: j in s.txs && j != k ==> KeepsOwnFlag(tx, s.txs[j]) && KeepsOwnFlag(s.txs[j], tx)
    ensures Good(s.(txs := s.txs[k := tx]))
  {
    ViewOfNothing(s.committed);
    forall j | j in s.txs && j != k
      ensures Apart(tx, s.txs[j])
    {
      CompatibleWithNothing(s.txs[j].delta);
    }
    GoodAfterTx(s, k, tx, s.issued);
  }

  lemma ExperimentsOnlyInserted(c: Tables, issued: set<Uuid>, tx: Tx)
    requires TxOk(c, issued, tx)
    ensures NeverDeletes(tx.delta.experiments) && WrittenIds(tx.delta) <= issued
    ensures forall v :: v in tx.delta.variants ==> v !in c.variants
  {
  }

  lemma NewFlagUncommitted(c: Tables, issued: set<Uuid>, tx: Tx)
    requires TxOk(c, issued, tx) && tx.mutation.CreateFlag? && TargetOf(tx).Some?
    ensures TargetOf(tx).value !in c.flags && TargetOf(tx).value in issued
  {
  }

  lemma FoundFlagCommitted(c: Tables, m: Mutation)
    requires Decide(c, m).Success? && Decide(c, m).value.OnRow? && EntityOf(m) == FeatureFlag
    ensures Decide(c, m).value.target in c.flags && !m.CreateFlag?
  {
  }

  lemma OpensMints(m: Mutation, insert: Statement)
    requires Opens(m, insert)
    ensures Mints(insert) && !insert.DeleteRules?
  {
  }

  lemma GoodAfterRead(s: State, k: nat)
    requires Good(s) && Enabled(s, Read(k))
    ensures Good(After(s, Read(k)))
  {
    hide Consistent, Compatible, View, Decide, RunningOk, Opens, IdsOf;
    var tx := s.txs[k];
    var m := tx.mutation;
    if Decide(s.committed, m).Success? {
      DecideOk(s.committed, s.issued, m);
      assert TxOk(s.committed, s.issued, tx);
      var tx' := AfterRead(s, tx);
      forall j | j in s.txs && j != k
        ensures KeepsOwnFlag(tx', s.txs[j]) && KeepsOwnFlag(s.txs[j], tx')
      {
        var o := s.txs[j];
        assert TxOk(s.committed, s.issued, o);
        if TargetOf(tx').Some? && EntityOf(m) == FeatureFlag {
          FoundFlagCommitted(s.committed, m);
          if o.mutation.CreateFlag? && TargetOf(o).Some? {
            NewFlagUncommitted(s.committed, s.issued, o);
          }
        }
      }
    }
    GoodAfterIdle(s, k, AfterRead(s, tx));
  }

  lemma RecordKeepsAudit(c: Tables, d: Delta, s: Statement, id: Uuid, missed: set<Uuid>)
    ensures Record(c, d, s, id, missed).audit == d.audit
  {
  }

  /** What Execute makes of the transaction itself. */
  lemma StatementOk(s: State, k: nat, id: Uuid, missed: set<Uuid>)
    requires Good(s) && Enabled(s, Execute(k, id, missed))
    ensures var s' := After(s, Execute(k, id, missed));
      && TxOk(s.committed, s'.issued, s'.txs[k])
      && Consistent(View(s.committed, s'.txs[k].delta))
  {
    hide Consistent, Compatible, View, Decide, RunningOk, Opens, IdsOf, Record, Exec;
    var tx, c := s.txs[k], s.committed;
    var stmt := NextStatement(tx);
    assert TxOk(c, s.issued, tx);
    if tx.phase.Inserting? {
      OpensMints(tx.mutation, stmt);
    }
    if Exec(View(c, tx.delta), stmt, id).Applied? {
      ExperimentsOnlyInserted(c, s.issued, tx);
      RecordKeepsAudit(c, tx.delta, stmt, id, missed);
      RecordKeepsConsistent(c, s.issued, tx.delta, stmt, id, missed);
      if tx.phase.Inserting? {
        RecordOfParent(c, s.issued, tx.mutation, stmt, id);
        RecordWithoutMissing(c, tx.delta, stmt, id, missed);
      } else {
        RecordStaysOnTarget(c, s.issued, tx.mutation, tx.delta, tx.phase.target, tx.phase.todo, id, missed);
      }
    } else {
      ViewOfNothing(c);
    }
  }

  lemma InsertedRulesUncommitted(s: State, j: nat)
    requires Good(s) && j in s.txs
    ensures forall r :: r in s.txs[j].delta.rules && s.txs[j].delta.rules[r].Some? ==> r !in s.committed.rules
    ensures WrittenIds(s.txs[j].delta) <= s.issued
  {
    assert TxOk(s.committed, s.issued, s.txs[j]);
  }

  /** What a statement makes of a transaction stays apart from another one. */
  lemma StatementApart(c: Tables, issued: set<Uuid>, tx: Tx, o: Tx, id: Uuid, missed: set<Uuid>)
    requires Waiting(tx) && TxOk(c, issued, tx) && TxOk(c, issued, o) && Apart(tx, o)
    requires !Conflicts(o.delta, NextStatement(tx)) && (Mints(NextStatement(tx)) ==> id !in issued)
    requires WrittenIds(o.delta) <= issued
    requires forall r :: r in o.delta.rules && o.delta.rules[r].Some? ==> r !in c.rules
    ensures Apart(AfterStatement(c, tx, id, missed), o)
  {
    hide Consistent, Compatible, View, Decide, Record, Exec, Conflicts, IdsOf;
    var stmt := NextStatement(tx);
    if Exec(View(c, tx.delta), stmt, id).Applied? {
      RecordKeepsCompatible(c, issued, tx.delta, o.delta, stmt, id, missed);
    } else {
      CompatibleWithNothing(o.delta);
    }
  }

  lemma GoodAfterExecute(s: State, k: nat, id: Uuid, missed: set<Uuid>)
    requires Good(s) && Enabled(s, Execute(k, id, missed))
    ensures Good(After(s, Execute(k, id, missed)))
  {
    StatementOk(s, k, id, missed);
    hide Apart, TxOk, Consistent, View, AfterStatement, Conflicts, Mints, IdsOf;
    var s' := After(s, Execute(k, id, missed));
    forall j | j in s.txs && j != k
      ensures Apart(s'.txs[k], s.txs[j])
    {
      InsertedRulesUncommitted(s, j);
      StatementApart(s.committed, s.issued, s.txs[k], s.txs[j], id, missed);
    }
    GoodAfterTx(s, k, s'.txs[k], s'.issued);
  }

  lemma AuditKeepsCompatible(d: Delta, o: Delta, rows: seq<AuditRow>)
    requires Compatible(d, o)
    ensures Compatible(d.(audit := rows), o)
  {
  }

  lemma AuditKeepsConsistent(c: Tables, d: Delta, rows: seq<AuditRow>)
    requires Consistent(View(c, d))
    ensures Consistent(View(c, d.(audit := rows)))
  {
  }

  lemma LogOk(c: Tables, issued: set<Uuid>, tx: Tx)
    requires TxOk(c, issued, tx) && tx.phase.Running? && tx.phase.todo == []
    ensures TxOk(c, issued, AfterLog(tx, tx.phase.target))
  {
  }

  lemma GoodAfterLog(s: State, k: nat)
    requires Good(s) && Enabled(s, Log(k))
    ensures Good(After(s, Log(k)))
  {
    hide Consistent, Compatible, View, IdsOf, RunningOk, AuditFor;
    var tx, c := s.txs[k], s.committed;
    assert TxOk(c, s.issued, tx);
    var tx' := AfterLog(tx, tx.phase.target);
    LogOk(c, s.issued, tx);
    if ParseUuid(tx.actor).None? {
      GoodAfterIdle(s, k, tx');
    } else {
      AuditKeepsConsistent(c, tx.delta, tx'.delta.audit);
      forall j | j in s.txs && j != k
        ensures Apart(tx', s.txs[j])
      {
        assert Apart(tx, s.txs[j]);
        AuditKeepsCompatible(tx.delta, s.txs[j].delta, tx'.delta.audit);
      }
      GoodAfterTx(s, k, tx', s.issued);
    }
  }

  /** A commit leaves another transaction on its target as it was. */
  lemma CommitKeepsRunning(c: Tables, issued: set<Uuid>, t1: Tx, t2: Tx, x: Uuid, todo: seq<Statement>)
    requires Consistent(c) && TxOk(c, issued, t1) && t1.phase.Logged?
    requires RunningOk(c, issued, t2.mutation, t2.delta, x, todo) && TargetOf(t2) == Some(x)
    requires Apart(t1, t2)
    ensures RunningOk(View(c, t1.delta), issued, t2.mutation, t2.delta, x, todo)
  {
    CommitKeepsTouches(c, t1, t2, x);
    CommitKeepsStanding(c, issued, t1, t2, x, todo);
  }

  lemma CommitKeepsTouches(c: Tables, t1: Tx, t2: Tx, x: Uuid)
    requires Touches(c, t2.delta, EntityOf(t2.mutation), x)
    requires Compatible(t1.delta, t2.delta)
    ensures Touches(View(c, t1.delta), t2.delta, EntityOf(t2.mutation), x)
  {
    var c' := View(c, t1.delta);
    if EntityOf(t2.mutation) == FeatureFlag {
      forall r | r in t2.delta.rules
        ensures t2.delta.rules[r].Some? ==> r !in c'.rules
        ensures r in c'.rules ==> c'.rules[r].flag == x
      {
      }
    }
  }

  lemma CommitKeepsStanding(c: Tables, issued: set<Uuid>, t1: Tx, t2: Tx, x: Uuid, todo: seq<Statement>)
    requires TxOk(c, issued, t1) && t1.phase.Logged?
    requires RunningOk(c, issued, t2.mutation, t2.delta, x, todo) && TargetOf(t2) == Some(x)
    requires Apart(t1, t2)
    ensures Standing(View(c, t1.delta), t2.mutation, t2.delta, x)
  {
    var m, c' := t2.mutation, View(c, t1.delta);
    assert Touches(c, t1.delta, EntityOf(t1.mutation), t1.phase.target);
    assert ActionOf(m) == Create ==> RowWritten(t2.delta, EntityOf(m), x);
  }

  lemma CommitKeepsTx(c: Tables, issued: set<Uuid>, t1: Tx, t2: Tx)
    requires Consistent(c) && TxOk(c, issued, t1) && t1.phase.Logged?
    requires TxOk(c, issued, t2) && Apart(t1, t2)
    ensures TxOk(View(c, t1.delta), issued, t2)
  {
    hide RunningOk, View, Apart;
    if t2.phase.Running? {
      CommitKeepsRunning(c, issued, t1, t2, t2.phase.target, t2.phase.todo);
    } else if t2.phase.Logged? {
      CommitKeepsRunning(c, issued, t1, t2, t2.phase.target, []);
    }
  }

  lemma NewsChangesNothing(c: Tables, issued: set<Uuid>, tx: Tx, o: Tx, news: set<Uuid>)
    ensures TxOk(c, issued, tx) ==> TxOk(c, issued, tx.(news := news))
    ensures Apart(tx, o) ==> Apart(tx.(news := news), o)
    ensures Apart(o, tx) ==> Apart(o, tx.(news := news))
  {
    hide RunningOk, Compatible;
  }

  lemma FinishedApart(tx: Tx, o: Tx, x: Uuid)
    ensures Apart(RolledBack(tx, Finished(x)), o) && Apart(o, RolledBack(tx, Finished(x)))
  {
    CompatibleWithNothing(o.delta);
  }

  lemma IsolatedAfterCommit(s: State, k: nat)
    requires Good(s) && Enabled(s, Commit(k))
    ensures Isolated(After(s, Commit(k)).txs)
  {
    hide Consistent, TxOk, Compatible, View, KeepsOwnFlag;
    var txs, txs' := s.txs, After(s, Commit(k)).txs;
    forall i, j | i in txs' && j in txs' && i != j
      ensures Apart(txs'[i], txs'[j])
    {
      hide Apart;
      assert Apart(txs[i], txs[j]);
      var x := txs[k].phase.target;
      var ti := if i == k then RolledBack(txs[k], Finished(x)) else txs[i];
      var tj := if j == k then RolledBack(txs[k], Finished(x)) else txs[j];
      if i == k {
        FinishedApart(txs[k], tj, x);
      } else if j == k {
        FinishedApart(txs[k], ti, x);
      }
      NewsChangesNothing(s.committed, s.issued, ti, tj, txs'[i].news);
      NewsChangesNothing(s.committed, s.issued, tj, txs'[i], txs'[j].news);
    }
  }

  lemma GoodAfterCommit(s: State, k: nat)
    requires Good(s) && Enabled(s, Commit(k))
    ensures Good(After(s, Commit(k)))
  {
    hide Consistent, Compatible, View, RunningOk, AuditFor, KeepsOwnFlag, IdsOf, WrittenIds;
    var t1, c := s.txs[k], s.committed;
    var s' := After(s, Commit(k));
    assert TxOk(c, s.issued, t1);
    IdsOfView(c, t1.delta);
    ExperimentsOnlyInserted(c, s.issued, t1);
    ViewOfNothing(s'.committed);
    forall j | j in s'.txs
      ensures TxOk(s'.committed, s'.issued, s'.txs[j])
      ensures Consistent(View(s'.committed, s'.txs[j].delta))
    {
      if j != k {
        var t2 := s.txs[j];
        assert Apart(t1, t2) && TxOk(c, s.issued, t2);
        CommitKeepsTx(c, s.issued, t1, t2);
        NewsChangesNothing(s'.committed, s.issued, t2, t2, s'.txs[j].news);
        ExperimentsOnlyInserted(c, s.issued, t2);
        MergeKeepsConsistent(c, t1.delta, t2.delta);
      }
    }
    IsolatedAfterCommit(s, k);
  }

  /** An assignment is written outside any transaction. */
  lemma AssignmentKeepsView(c: Tables, d: Delta, a: (Uuid, Uuid), v: Uuid)
    requires Consistent(View(c, d))
    requires a.0 in c.users && a.1 in c.experiments && v in c.variants && c.variants[v].experiment == a.1
    requires v !in d.variants && NeverDeletes(d.experiments)
    ensures Consistent(View(c.(assignments := c.assignments[a := v]), d))
  {
    hide UsersOk, RulesOk, VariantsOk, UniqueBy, CascadeRules;
    var before, after := View(c, d), View(c.(assignments := c.assignments[a := v]), d);
    assert after == before.(assignments := after.assignments);
    assert AssignmentsOk(before);
    forall b | b in after.assignments
      ensures b.0 in after.users && b.1 in after.experiments && after.assignments[b] in after.variants
      ensures after.variants[after.assignments[b]].experiment == b.1
    {
      if b != a {
        assert b in before.assignments && before.assignments[b] == after.assignments[b];
      }
    }
  }

  lemma AssignmentKeepsTx(c: Tables, issued: set<Uuid>, tx: Tx, a: (Uuid, Uuid), v: Uuid)
    requires TxOk(c, issued, tx)
    ensures TxOk(c.(assignments := c.assignments[a := v]), issued, tx)
  {
    hide Scheduled, Opens, AuditFor;
  }

  lemma GoodAfterStore(s: State, n: nat)
    requires Good(s) && Enabled(s, Store(n))
    ensures Good(After(s, Store(n)))
  {
    hide Consistent, Compatible, View;
    var call, c := s.calls[n], s.committed;
    var e, v := call.stage.experiment, call.stage.variant;
    var s' := After(s, Store(n));
    if ParseUuid(call.user).Some? && Upsert(c, ParseUuid(call.user).value, e, v.id).Success? {
      var a := (ParseUuid(call.user).value, e);
      UpsertKeepsConsistent(c, a.0, e, v.id);
      forall k | k in s.txs
        ensures TxOk(s'.committed, s'.issued, s'.txs[k])
        ensures Consistent(View(s'.committed, s'.txs[k].delta))
      {
        assert TxOk(c, s.issued, s.txs[k]);
        ExperimentsOnlyInserted(c, s.issued, s.txs[k]);
        AssignmentKeepsTx(c, s.issued, s.txs[k], a, v.id);
        AssignmentKeepsView(c, s.txs[k].delta, a, v.id);
      }
    }
  }

  lemma GoodAfterOpen(s: State, k: nat, m: Mutation, claims: Option<Claims>)
    requires Good(s) && Enabled(s, Open(k, m, claims))
    ensures Good(After(s, Open(k, m, claims)))
  {
    hide Consistent, View, RunningOk, Admit;
    GoodAfterIdle(s, k, After(s, Open(k, m, claims)).txs[k]);
  }

  lemma GoodAfterFault(s: State, k: nat)
    requires Good(s) && Enabled(s, Fault(k))
    ensures Good(After(s, Fault(k)))
  {
    hide Consistent, View, RunningOk;
    GoodAfterIdle(s, k, After(s, Fault(k)).txs[k]);
  }

  lemma GoodIgnoresCalls(s: State, calls: map<nat, Call>)
    requires Good(s)
    ensures Good(s.(calls := calls))
  {
    hide Consistent, View, TxOk, Apart;
  }

  /** Isolation is kept by every step. */
  lemma GoodAfterStep(s: State, step: Step)
    requires Good(s) && Enabled(s, step)
    ensures Good(After(s, step))
  {
    hide Good;
    match step
    case Open(k, m, claims) => GoodAfterOpen(s, k, m, claims);
    case Read(k) => GoodAfterRead(s, k);
    case Execute(k, id, missed) => GoodAfterExecute(s, k, id, missed);
    case Log(k) => GoodAfterLog(s, k);
    case Commit(k) => GoodAfterCommit(s, k);
    case Fault(k) => GoodAfterFault(s, k);
    case Store(n) => GoodAfterStore(s, n);
    case _ => GoodIgnoresCalls(s, After(s, step).calls);
  }

  /** A starting point: consistent tables, nothing running, and all ids in use accounted for. */
  ghost predicate Initial(s: State) {
    && Consistent(s.committed)
    && IdsOf(s.committed) <= s.issued
    && s.txs == map[]
    && s.calls == map[]
    && s.order == []
    && s.settled == s.committed.assignments
  }

  lemma {:induction false} GoodFrom(s: State, steps: seq<Step>)
    requires Good(s) && Legal(s, steps)
    ensures Good(Final(s, steps))
    decreases |steps|
  {
    if steps != [] {
      hide Good, Enabled, After;
      GoodFrom(s, steps[..|steps| - 1]);
      GoodAfterStep(Final(s, steps[..|steps| - 1]), steps[|steps| - 1]);
    }
  }

  lemma GoodAlways(s: State, steps: seq<Step>)
    requires Initial(s) && Legal(s, steps)
    ensures Good(Final(s, steps)) && Consistent(Final(s, steps).committed)
  {
    assert Good(s);
    GoodFrom(s, steps);
    hide Legal, Final, Consistent;
  }
}
