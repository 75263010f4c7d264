/** Races for one unique key: who loses, what the loser gets, and that the winner is alone. */
module Races {
  import opened Wrappers
  import opened Schema
  import opened Statements
  import opened Errors
  import opened Weights
  import opened Protocol
  import opened Transactions
  import opened Merging
  import opened Interleaving
  import opened Isolation

  /** A committed row holds the unique key this create asks for. */
  ghost predicate KeyTaken(c: Tables, m: Mutation) {
    match m
    case CreateFlag(input) => exists f :: f in c.flags && FlagKeyOf(c.flags[f]) == (input.key, input.environment)
    case CreateUser(input) => exists u :: u in c.users && c.users[u].email == input.email
    case CreateExperiment(input) =>
      exists e :: e in c.experiments && ExperimentKeyOf(c.experiments[e]) == (input.key, input.environment)
    case _ => false
  }

  /** The open transaction has written a row with the key this create asks for. */
  ghost predicate KeyClaimed(d: Delta, m: Mutation) {
    match m
    case CreateFlag(input) => ClaimsFlagKey(d, (input.key, input.environment), {})
    case CreateUser(input) => ClaimsEmail(d, input.email, {})
    case CreateExperiment(input) => ClaimsExperimentKey(d, (input.key, input.environment))
    case _ => false
  }

  function DuplicateOf(m: Mutation): Error {
    match m
    case CreateFlag(input) => DuplicateKey(input.key, input.environment)
    case CreateUser(input) => DuplicateEmail(input.email)
    case CreateExperiment(input) => DuplicateExperiment(input.key, input.environment)
    case _ => ConnectionFailure
  }

  /** The input passes the checks that come before the unique key is looked at. */
  predicate PassesChecks(m: Mutation) {
    match m
    case CreateUser(input) => !input.role.UnknownRole?
    case CreateExperiment(input) => Verdict(WeightsOf(input.variants)).Success?
    case _ => true
  }

  /** The check before the insert. */
  lemma PreCheckFindsDuplicate(c: Tables, m: Mutation)
    requires KeyTaken(c, m) && PassesChecks(m)
    ensures Decide(c, m) == Failure(DuplicateOf(m))
  {
  }

  /** The unique constraint at the insert. */
  lemma ConstraintFindsDuplicate(c: Tables, m: Mutation, insert: Statement, id: Uuid)
    requires KeyTaken(c, m) && PassesChecks(m) && Opens(m, insert)
    ensures Exec(c, insert, id) == Effect.Rejected(UniqueViolation)
    ensures StoreError(insert, UniqueViolation) == DuplicateOf(m)
  {
  }

  /**
   A create whose key is taken ends with nothing committed and an error that unwraps to the
   duplicate error, whether its check or the constraint finds the other row.
   */
  lemma LoserGetsDuplicate(s: State, k: nat, step: Step)
    requires Good(s) && Enabled(s, step)
    requires k in s.txs && KeyTaken(s.committed, s.txs[k].mutation) && PassesChecks(s.txs[k].mutation)
    requires (step == Read(k)) || (step.Execute? && step.k == k && s.txs[k].phase.Inserting?)
    ensures var s' := After(s, step);
      && s'.txs[k].phase.Failed?
      && InChain(s'.txs[k].phase.error, DuplicateOf(s.txs[k].mutation))
      && s'.committed == s.committed
      && s'.txs[k].delta == NO_WRITES
  {
    hide Isolated, AllViewsConsistent, Consistent, Exec, Decide;
    var tx, c := s.txs[k], s.committed;
    if step.Read? {
      PreCheckFindsDuplicate(c, tx.mutation);
    } else {
      assert TxOk(c, s.issued, tx);
      ViewOfNothing(c);
      ConstraintFindsDuplicate(c, tx.mutation, tx.phase.insert, step.id);
    }
  }

  lemma HolderMeetsNoCommittedRow(c: Tables, issued: set<Uuid>, tx: Tx)
    requires TxOk(c, issued, tx) && Consistent(View(c, tx.delta))
    requires ActionOf(tx.mutation) == Create && TargetOf(tx).Some?
    ensures !KeyTaken(c, tx.mutation)
  {
    hide RulesOk, VariantsOk, AssignmentsOk, AuditFor;
    var x := TargetOf(tx).value;
    assert Wrote(tx.mutation, tx.delta, x) && Touches(c, tx.delta, EntityOf(tx.mutation), x);
  }

  lemma HolderMeetsNoClaim(c: Tables, issued: set<Uuid>, tx: Tx, o: Tx)
    requires TxOk(c, issued, tx) && Compatible(tx.delta, o.delta)
    requires ActionOf(tx.mutation) == Create && TargetOf(tx).Some?
    ensures !KeyClaimed(o.delta, tx.mutation)
  {
    hide RulesApart, AuditFor, Touches;
    assert Wrote(tx.mutation, tx.delta, TargetOf(tx).value);
  }

  /**
   From its insert to its end a create has its key for itself: no committed row holds it and
   no other open transaction claims it. So while one creator's row stands, no other commits.
   */
  lemma HolderIsAlone(s: State, k: nat)
    requires Good(s) && k in s.txs
    requires ActionOf(s.txs[k].mutation) == Create && TargetOf(s.txs[k]).Some?
    ensures !KeyTaken(s.committed, s.txs[k].mutation)
    ensures forall j :: j in s.txs && j != k ==> !KeyClaimed(s.txs[j].delta, s.txs[k].mutation)
  {
    hide Consistent, TxOk, KeyTaken, KeyClaimed;
    HolderMeetsNoCommittedRow(s.committed, s.issued, s.txs[k]);
    forall j | j in s.txs && j != k
      ensures !KeyClaimed(s.txs[j].delta, s.txs[k].mutation)
    {
      assert Apart(s.txs[k], s.txs[j]);
      HolderMeetsNoClaim(s.committed, s.issued, s.txs[k], s.txs[j]);
    }
  }

  // ---------------------------------------------------------------- a row that is gone meanwhile

  /** The statement updates or deletes a row that another transaction has deleted since this one found it. */
  predicate HitsNothing(t: Tables, s: Statement) {
    match s
    case UpdateFlag(f, _) => f !in t.flags
    case DeleteFlag(f) => f !in t.flags
    case UpdateUser(u, _) => u !in t.users
    case DeleteUser(u) => u !in t.users
    case _ => false
  }

  /** Then the mutation fails as not found, by the id of the row, and deleteUser ends without an error. */
  lemma GoneMeanwhile(c: Tables, issued: set<Uuid>, tx: Tx, id: Uuid, missed: set<Uuid>)
    requires TxOk(c, issued, tx) && Waiting(tx) && HitsNothing(View(c, tx.delta), NextStatement(tx))
    ensures AfterStatement(c, tx, id, missed).delta == NO_WRITES
    ensures AfterStatement(c, tx, id, missed).phase == (
      match NextStatement(tx)
      case UpdateFlag(f, _) => Failed(Operation(FlagIdNotFound(f)))
      case DeleteFlag(f) => Failed(Operation(FlagIdNotFound(f)))
      case UpdateUser(u, _) => Failed(Operation(UserNotFound(Canonical(u))))
      case _ => NothingThere)
  {
    hide View, Touches, Standing;
    assert tx.phase.Running? ==> OnTarget(tx.mutation, tx.phase.target, tx.phase.todo[0]);
  }
}
