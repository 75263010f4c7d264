/** What the outcomes of all mutations have in common: new ids, the audit row, store errors. */
module Outcomes {
  import opened Schema
  import opened Statements
  import opened Errors

  /** Ids from n on are different from each other and from every id stored. */
  ghost predicate NewIn(t: Tables, ids: nat -> Uuid, n: nat) {
    (forall i, j :: n <= i < j ==> ids(i) != ids(j)) && forall i :: n <= i ==> ids(i) !in IdsOf(t)
  }

  /** One audit row was appended. */
  ghost predicate Logged(t: Tables, t': Tables, entity: Entity, id: IdText, action: Action, actor: IdText) {
    ParseUuid(actor).Some? && t'.audit == t.audit + [AuditRow(entity, id, action, ParseUuid(actor).value)]
  }

  /** A store error inside the service's own: an id that is no UUID, or a constraint that refuses the row. */
  function Stored(violation: SqlError): Error {
    Operation(Operation(DatabaseError(violation)))
  }
}
