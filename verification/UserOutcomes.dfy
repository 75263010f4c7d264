/**
 What createUser, updateUser and deleteUser do, case by case, in terms of what the client
 sends and what is stored.
 */
module UserOutcomes {
  import opened Wrappers
  import opened Schema
  import opened Statements
  import opened Errors
  import opened Protocol
  import opened Outcomes

  ghost predicate EmailStored(t: Tables, email: string) {
    exists u :: u in t.users && t.users[u].email == email
  }

  lemma EmailFound(t: Tables, email: string)
    ensures EmailStored(t, email) <==> FindEmail(t.users, email).Some?
    ensures EmailStored(t, email) <==> EmailTaken(t.users, email, {})
  {
  }

  /** A password is given; the empty one counts as none. */
  predicate Given(password: Option<string>) {
    password.Some? && password.value != ""
  }

  /** What is stored for the password: the hash of a given one, never its text; otherwise what was there. */
  predicate HashStored(
    before: Option<string>, password: Option<string>, digest: Option<string>, after: Option<string>)
  {
    && (Given(password) ==> digest.Some? && after == digest)
    && (!Given(password) ==> after == before)
  }

  ghost predicate OnlyUserChanges(t: Tables, t': Tables, u: Uuid) {
    && u in t'.users && t'.users == t.users[u := t'.users[u]]
    && t'.flags == t.flags && t'.rules == t.rules && t'.experiments == t.experiments && t'.variants == t.variants
    && t'.assignments == t.assignments
  }

  // ---------------------------------------------------------------- createUser

  ghost predicate CreateRefused(t: Tables, input: CreateUserInput, actor: IdText, e: Error) {
    if EmailStored(t, input.email) then e == DuplicateEmail(input.email)
    else if Given(input.password) && input.digest == None then e == Operation(HashingFailed)
    else if input.role.UnknownRole? then e == Stored(CheckViolation)
    else actor.NotUuid? && e == Stored(InvalidText)
  }

  /** createUser: when it is refused, with which error, and the user it leaves when it is not. */
  lemma CreateUserOutcome(t: Tables, input: CreateUserInput, actor: IdText, ids: nat -> Uuid, n: nat)
    ensures match Serial(t, Mutation.CreateUser(input), actor, ids, n)
      case Refused(e) => CreateRefused(t, input, actor, e)
      case Committed(t', answer) =>
        var u := ids(n);
        && !EmailStored(t, input.email) && !input.role.UnknownRole?
        && OnlyUserChanges(t, t', u)
        && t'.users[u].email == input.email && t'.users[u].role == input.role
        && HashStored(None, input.password, input.digest, t'.users[u].passwordHash)
        && answer == UserAnswer(u, input.email, input.role)
        && Logged(t, t', Entity.User, Canonical(u), Action.Create, actor)
      case NothingDeleted => false
  {
    EmailFound(t, input.email);
    var m := Mutation.CreateUser(input);
    hide FindEmail, EmailTaken, EmailStored;
    assert forall t', k :: RunTodo(t', [], ids, k) == Success(t');
  }

  // ---------------------------------------------------------------- updateUser

  predicate EmailWanted(before: string, change: UpdateUserInput, after: string) {
    after == if change.email.Some? then change.email.value else before
  }

  predicate RoleWanted(before: Role, change: UpdateUserInput, after: Role) {
    after == if change.role.Some? then change.role.value else before
  }

  ghost predicate EmailOfAnother(t: Tables, u: Uuid, email: string) {
    exists w :: w in t.users && w != u && t.users[w].email == email
  }

  ghost predicate UpdateRefused(t: Tables, u: Uuid, change: UpdateUserInput, actor: IdText, e: Error) {
    if Given(change.password) && change.digest == None then e == Operation(HashingFailed)
    else if change.role.Some? && change.role.value.UnknownRole? then e == Stored(CheckViolation)
    else if change.email.Some? && EmailOfAnother(t, u, change.email.value) then e == Stored(UniqueViolation)
    else actor.NotUuid? && e == Stored(InvalidText)
  }

  /** The user has what the update brings, and otherwise what it had. */
  ghost predicate UserUpdated(t: Tables, t': Tables, u: Uuid, change: UpdateUserInput, actor: IdText, answer: Answer)
    requires u in t.users
  {
    && OnlyUserChanges(t, t', u)
    && EmailWanted(t.users[u].email, change, t'.users[u].email)
    && RoleWanted(t.users[u].role, change, t'.users[u].role)
    && HashStored(t.users[u].passwordHash, change.password, change.digest, t'.users[u].passwordHash)
    && !t'.users[u].role.UnknownRole? && !EmailOfAnother(t, u, t'.users[u].email)
    && answer == UserAnswer(u, t'.users[u].email, t'.users[u].role)
    && Logged(t, t', Entity.User, Canonical(u), Action.Update, actor)
  }

  lemma UserEdited(row: UserRow, change: UpdateUserInput)
    ensures match EditedUser(row, change)
      case Failure(e) => Given(change.password) && change.digest == None && e == Operation(HashingFailed)
      case Success(after) =>
        && EmailWanted(row.email, change, after.email) && RoleWanted(row.role, change, after.role)
        && HashStored(row.passwordHash, change.password, change.digest, after.passwordHash)
  {
  }

  lemma OwnEmailIsFree(t: Tables, u: Uuid, email: string)
    requires Consistent(t) && u in t.users
    ensures EmailTaken(t.users, email, {u}) <==> EmailOfAnother(t, u, email)
    ensures !EmailOfAnother(t, u, t.users[u].email) && !t.users[u].role.UnknownRole?
  {
    hide RulesOk, VariantsOk, AssignmentsOk;
    forall w | w in t.users && t.users[w].email == t.users[u].email
      ensures w == u
    {
      assert EmailOf(t.users[w]) == EmailOf(t.users[u]);
    }
  }

  lemma OneUpdateWorks(t: Tables, u: Uuid, row: UserRow, ids: nat -> Uuid, n: nat)
    requires u in t.users
    ensures var s := Statement.UpdateUser(u, row);
      RunTodo(t, [s], ids, n) ==
        if row.role.UnknownRole? then Failure(Operation(StoreError(s, CheckViolation)))
        else if EmailTaken(t.users, row.email, {u}) then Failure(Operation(StoreError(s, UniqueViolation)))
        else Success(t.(users := t.users[u := row]))
  {
    var s := Statement.UpdateUser(u, row);
    RunThenLast(t, [], s, ids, n, 0);
    assert [] + [s] == [s];
    hide EmailTaken;
  }

  /** updateUser: when it is refused, with which error, and the user it leaves when it is not. */
  lemma UpdateUserOutcome(t: Tables, change: UpdateUserInput, actor: IdText, ids: nat -> Uuid, n: nat)
    requires Consistent(t)
    ensures match Serial(t, Mutation.UpdateUser(change), actor, ids, n)
      case Refused(e) =>
        if change.id.NotUuid? then e == Stored(InvalidText)
        else if change.id.uuid !in t.users then e == UserNotFound(change.id)
        else UpdateRefused(t, change.id.uuid, change, actor, e)
      case Committed(t', answer) =>
        && !change.id.NotUuid? && change.id.uuid in t.users
        && UserUpdated(t, t', change.id.uuid, change, actor, answer)
      case NothingDeleted => false
  {
    hide Consistent, EmailTaken, EmailOfAnother, RunTodo, EditedUser, Given;
    if !change.id.NotUuid? && change.id.uuid in t.users {
      var u := change.id.uuid;
      UserEdited(t.users[u], change);
      if EditedUser(t.users[u], change).Success? {
        var row := EditedUser(t.users[u], change).value;
        OwnEmailIsFree(t, u, row.email);
        OneUpdateWorks(t, u, row, ids, n);
      }
    }
  }

  // ---------------------------------------------------------------- deleteUser

  /** deleteUser: a missing user is no error, a present one is gone with its assignments. */
  lemma DeleteUserOutcome(t: Tables, id: IdText, actor: IdText, ids: nat -> Uuid, n: nat)
    ensures match Serial(t, Mutation.DeleteUser(id), actor, ids, n)
      case NothingDeleted => !id.NotUuid? && id.uuid !in t.users
      case Refused(e) => e == Stored(InvalidText) && (id.NotUuid? || (id.uuid in t.users && actor.NotUuid?))
      case Committed(t', answer) =>
        && !id.NotUuid? && id.uuid in t.users && answer == Deleted(true)
        && t'.users == t.users - {id.uuid}
        && (forall a :: a in t'.assignments <==> a in t.assignments && a.0 != id.uuid)
        && (forall a :: a in t'.assignments ==> t'.assignments[a] == t.assignments[a])
        && t'.flags == t.flags && t'.rules == t.rules
        && t'.experiments == t.experiments && t'.variants == t.variants
        && Logged(t, t', Entity.User, id, Action.Delete, actor)
  {
    NotFoundIsRoot(Stored(InvalidText));
    assert Root(Stored(InvalidText)) == DatabaseError(InvalidText);
    if !id.NotUuid? {
      var s := Statement.DeleteUser(id.uuid);
      NotFoundIsRoot(Operation(MissingError(s)));
      RunThenLast(t, [], s, ids, n, 0);
      assert [] + [s] == [s];
      hide RunTodo;
    }
  }
}
