/** What one step leaves of each transaction, and of the order in which they commit. */
module TxSteps {
  import opened Protocol
  import opened Transactions
  import opened Statements
  import opened Interleaving
  import opened Isolation

  lemma TxsKept(s: State, step: Step, k: nat)
    requires Enabled(s, step) && k in s.txs
    ensures k in After(s, step).txs && After(s, step).txs[k].mutation == s.txs[k].mutation
    ensures s.txs[k].phase.Finished? ==> After(s, step).txs[k].phase == s.txs[k].phase && step != Commit(k)
    ensures step == Commit(k) ==> After(s, step).txs[k].phase.Finished?
  {
    hide Exec, Decide, View, Record, Admit, Upsert, Blocked, Mints;
  }

  lemma TxsOpened(s: State, step: Step, k: nat)
    requires Enabled(s, step) && k in After(s, step).txs && k !in s.txs
    ensures step.Open? && step.k == k && After(s, step).txs[k].mutation == step.mutation
  {
    hide Exec, Decide, View, Record, Admit, Upsert, Blocked, Mints;
  }

  lemma OrderKept(s: State, step: Step)
    requires Enabled(s, step)
    ensures After(s, step).order == if step.Commit? then s.order + [step.k] else s.order
  {
    hide Exec, Decide, View, Record, Admit, Upsert, Blocked, Mints;
  }

  /** The transaction has not read yet what its mutation is to work on. */
  predicate Undecided(txs: map<nat, Tx>, k: nat) {
    k in txs ==> txs[k].phase.Opened?
  }

  lemma UndecidedBefore(s: State, step: Step, k: nat)
    requires Enabled(s, step) && Undecided(After(s, step).txs, k)
    ensures Undecided(s.txs, k)
  {
    hide Exec, Decide, View, Record, Admit, Upsert, Blocked, Mints, InsertedRules;
  }

  /** What a step that is no commit makes of one transaction. */
  lemma TxAfterOther(s: State, step: Step, k: nat)
    requires Enabled(s, step) && !step.Commit? && k in After(s, step).txs
    ensures var tx' := After(s, step).txs[k];
      || (TargetOf(tx').None? && !tx'.phase.Inserting?)
      || (k in s.txs && tx' == s.txs[k])
      || (step == Read(k) && tx' == AfterRead(s, s.txs[k]))
      || (step == Log(k) && tx' == AfterLog(s.txs[k], s.txs[k].phase.target))
      || (step.Execute? && step.k == k && tx' == AfterStatement(s.committed, s.txs[k], step.id, step.missed))
  {
    hide Decide, Admit, AfterStatement, AfterLog, AfterRead, Upsert, Exec, View, Record, Blocked;
  }

  /** What the steps of a transaction before its commit need. */
  lemma EnabledNeeds(s: State, step: Step)
    requires Enabled(s, step)
    ensures step.Read? ==> step.k in s.txs && s.txs[step.k].phase.Opened?
    ensures step.Log? ==> step.k in s.txs && s.txs[step.k].phase.Running? && s.txs[step.k].phase.todo == []
    ensures step.Execute? ==>
      && step.k in s.txs && Waiting(s.txs[step.k]) && step.missed <= s.txs[step.k].news
      && (Mints(NextStatement(s.txs[step.k])) ==> step.id !in s.issued)
  {
    hide Blocked, Mints;
  }
}
