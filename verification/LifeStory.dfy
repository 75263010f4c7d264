/**
 The audit log as a life story: replayed in commit order, its rows create, update and
 delete entities in an order that makes sense and end with the entities that exist.
 */
module LifeStory {
  import opened Wrappers
  import opened Schema
  import opened Statements
  import opened Protocol
  import opened Transactions
  import opened Interleaving
  import opened Isolation
  import opened Reachable
  import opened AuditTrail
  import opened Solo

  type Being = (Entity, Uuid)

  datatype Census = Census(live: set<Being>, gone: set<Being>)

  function Population(c: Tables): (p: set<Being>)
    ensures forall e: Entity, x: Uuid :: (e, x) in p <==> LiveIn(c, e, x)
  {
    (set u | u in c.users :: (Entity.User, u))
    + (set f | f in c.flags :: (FeatureFlag, f))
    + (set x | x in c.experiments :: (Entity.Experiment, x))
  }

  /** One row of the story: nothing is created twice, and only what lives is updated or deleted. */
  function Turn(census: Census, row: AuditRow): Option<Census> {
    match ParseUuid(row.entityId)
    case None => None
    case Some(x) =>
      var being := (row.entity, x);
      match row.action
      case Create =>
        if being in census.live || being in census.gone then None
        else Some(census.(live := census.live + {being}))
      case Update => if being in census.live then Some(census) else None
      case Delete =>
        if being in census.live then Some(Census(census.live - {being}, census.gone + {being})) else None
  }

  /** Replays rows from a population; None when a row makes no sense where it stands. */
  function Replay(start: set<Being>, rows: seq<AuditRow>): Option<Census> {
    if rows == [] then Some(Census(start, {}))
    else
      match Replay(start, rows[..|rows| - 1])
      case None => None
      case Some(census) => Turn(census, rows[|rows| - 1])
  }

  /** The rows appended since c0 make sense and tell exactly who lives in c. */
  ghost predicate Told(c0: Tables, c: Tables) {
    && c0.audit <= c.audit
    && Replay(Population(c0), Appended(c0, c)).Some?
    && Replay(Population(c0), Appended(c0, c)).value.live == Population(c)
  }

  ghost function GoneBy(c0: Tables, c: Tables): set<Being>
    requires Told(c0, c)
  {
    Replay(Population(c0), Appended(c0, c)).value.gone
  }

  /** The story so far, and what keeps it going: nobody is about to be born twice. */
  ghost predicate StoryOk(c0: Tables, s: State) {
    && Told(c0, s.committed)
    && (forall b :: b in GoneBy(c0, s.committed) ==> b.1 in s.issued)
    && Unborn(s.txs, GoneBy(c0, s.committed))
  }

  /** No transaction is about to create something that existed before. */
  ghost predicate Unborn(txs: map<nat, Tx>, gone: set<Being>) {
    forall k :: k in txs && ActionOf(txs[k].mutation) == Create && TargetOf(txs[k]).Some? ==>
      (EntityOf(txs[k].mutation), TargetOf(txs[k]).value) !in gone
  }

  lemma OthersLive(c: Tables, c': Tables, e0: Entity, x: Uuid, e: Entity, y: Uuid)
    requires OthersSame(c, c', e0, x) && (e != e0 || y != x)
    ensures LiveIn(c, e, y) == LiveIn(c', e, y)
  {
    assert SameImage(c, c', e, y);
  }

  /** A commit's own row turns the census of the old population into that of the new one. */
  lemma CommitTurns(c: Tables, c': Tables, tx: Tx, x: Uuid, gone: set<Being>)
    requires AuditedCommit(c, c', tx, x)
    requires ActionOf(tx.mutation) == Create ==> (EntityOf(tx.mutation), x) !in gone
    ensures var next := Turn(Census(Population(c), gone), c'.audit[|c.audit|]);
      && next.Some?
      && next.value.live == Population(c')
      && next.value.gone == if ActionOf(tx.mutation) == Delete then gone + {(EntityOf(tx.mutation), x)} else gone
  {
    hide OthersSame, LiveIn;
    var e0 := EntityOf(tx.mutation);
    forall e: Entity, y: Uuid
      ensures (e, y) in Population(c') <==>
        if e == e0 && y == x then ActionOf(tx.mutation) != Delete else (e, y) in Population(c)
    {
      if e != e0 || y != x {
        OthersLive(c, c', e0, x, e, y);
      }
    }
    var next := Turn(Census(Population(c), gone), c'.audit[|c.audit|]);
    assert next.Some?;
    assert forall b: Being :: b in next.value.live <==> b in Population(c') by {
      forall b: Being
        ensures b in next.value.live <==> b in Population(c')
      {
        assert b == (b.0, b.1);
      }
    }
  }

  lemma ToldAfterCommit(c0: Tables, c: Tables, c': Tables, tx: Tx, x: Uuid)
    requires Told(c0, c) && AuditedCommit(c, c', tx, x)
    requires ActionOf(tx.mutation) == Create ==> (EntityOf(tx.mutation), x) !in GoneBy(c0, c)
    ensures Told(c0, c')
    ensures GoneBy(c0, c') ==
      if ActionOf(tx.mutation) == Delete then GoneBy(c0, c) + {(EntityOf(tx.mutation), x)} else GoneBy(c0, c)
  {
    CommitTurns(c, c', tx, x, GoneBy(c0, c));
    CommitAppends(c, c', tx, x);
    AppendedGrows(c0, c, c');
    hide AuditedCommit, Population, Turn, Appended;
    ReplaySnoc(Population(c0), Appended(c0, c), Appended(c0, c')[|Appended(c0, c)|]);
  }

  lemma ReplaySnoc(start: set<Being>, rows: seq<AuditRow>, row: AuditRow)
    ensures Replay(start, rows + [row])
      == match Replay(start, rows) case None => None case Some(census) => Turn(census, row)
  {
    assert (rows + [row])[..|rows|] == rows;
  }

  lemma UnbornAfterCommit(s: State, k: nat, x: Uuid, gone: set<Being>)
    requires k in s.txs && s.txs[k].phase == Logged(x)
    requires Good(s) && Unborn(s.txs, gone)
    ensures Unborn(AfterCommit(s, k).txs, gone)
    ensures ActionOf(s.txs[k].mutation) == Delete ==>
      Unborn(AfterCommit(s, k).txs, gone + {(EntityOf(s.txs[k].mutation), x)})
  {
    hide Good, AfterCommit, TxOk, ActionOf, EntityOf, LiveIn, TargetOf;
    DeletedLives(s, k, x);
    TargetsAfterCommit(s, k, x);
    GoodTxs(s);
    var s' := AfterCommit(s, k);
    forall j | j in s'.txs && ActionOf(s'.txs[j].mutation) == Create && TargetOf(s'.txs[j]).Some?
      ensures (EntityOf(s'.txs[j].mutation), TargetOf(s'.txs[j]).value) !in gone
      ensures !LiveIn(s.committed, EntityOf(s'.txs[j].mutation), TargetOf(s'.txs[j]).value)
    {
      NewbornNotLive(s.committed, s.issued, s.txs[j]);
    }
  }

  lemma GoodTxs(s: State)
    requires Good(s)
    ensures AllTxOk(s.committed, s.issued, s.txs)
  {
  }

  lemma TargetsAfterCommit(s: State, k: nat, x: Uuid)
    requires k in s.txs && s.txs[k].phase == Logged(x)
    ensures var s' := AfterCommit(s, k);
      forall j :: j in s'.txs ==>
        && j in s.txs
        && s'.txs[j].mutation == s.txs[j].mutation
        && TargetOf(s'.txs[j]) == if j == k then None else TargetOf(s.txs[j])
  {
    hide View;
  }

  lemma CreatedWasUnborn(txs: map<nat, Tx>, k: nat, x: Uuid, gone: set<Being>)
    requires Unborn(txs, gone) && k in txs && txs[k].phase == Logged(x)
    ensures ActionOf(txs[k].mutation) == Create ==> (EntityOf(txs[k].mutation), x) !in gone
  {
  }

  lemma StoryAfterCommit(c0: Tables, s: State, k: nat, x: Uuid)
    requires k in s.txs && s.txs[k].phase == Logged(x)
    requires Good(s) && StoryOk(c0, s)
    ensures StoryOk(c0, AfterCommit(s, k))
  {
    hide Good, View, Told, GoneBy, AuditedCommit, Unborn;
    var gone := GoneBy(c0, s.committed);
    CommitStepIsAudited(s, k, x);
    UnbornAfterCommit(s, k, x, gone);
    DeletedLives(s, k, x);
    CreatedWasUnborn(s.txs, k, x, gone);
    ToldAfterCommit(c0, s.committed, AfterCommit(s, k).committed, s.txs[k], x);
  }

  lemma CommitAppends(c: Tables, c': Tables, tx: Tx, x: Uuid)
    requires AuditedCommit(c, c', tx, x)
    ensures |c'.audit| == |c.audit| + 1 && c'.audit[..|c.audit|] == c.audit
  {
  }

  lemma DeletedLives(s: State, k: nat, x: Uuid)
    requires Good(s) && k in s.txs && s.txs[k].phase == Logged(x)
    ensures ActionOf(s.txs[k].mutation) == Delete ==>
      LiveIn(s.committed, EntityOf(s.txs[k].mutation), x) && x in s.issued
  {
    hide Consistent, AuditFor, TxOk;
    TxIsOk(s, k);
    CommitLife(s.committed, s.issued, s.txs[k], x);
  }

  lemma NewbornNotLive(c: Tables, issued: set<Uuid>, tx: Tx)
    requires TxOk(c, issued, tx)
    requires ActionOf(tx.mutation) == Create && TargetOf(tx).Some?
    ensures !LiveIn(c, EntityOf(tx.mutation), TargetOf(tx).value)
  {
    hide Touches, Scheduled, AuditFor;
  }

  /** Targets of creates appear only as freshly generated ids. */
  lemma TargetsAreFresh(s: State, step: Step, j: nat)
    requires Enabled(s, step) && !step.Commit?
    requires j in After(s, step).txs
    requires j in s.txs ==> TxOk(s.committed, s.issued, s.txs[j])
    ensures var t' := After(s, step).txs[j];
      ActionOf(t'.mutation) == Create && TargetOf(t').Some? ==>
        || (j in s.txs && TargetOf(s.txs[j]) == TargetOf(t') && s.txs[j].mutation == t'.mutation)
        || TargetOf(t').value !in s.issued
  {
    hide View, Exec, Admit, Record, RunningOk, Conflicts, Upsert, AuditFor;
    if step.Execute? && step.k == j && s.txs[j].phase.Inserting? {
      OpensMints(s.txs[j].mutation, s.txs[j].phase.insert);
    } else if step.Read? && step.k == j {
      DecideCreates(s.committed, s.txs[j].mutation);
    }
  }

  lemma DecideCreates(c: Tables, m: Mutation)
    ensures ActionOf(m) == Create && Decide(c, m).Success? ==> Decide(c, m).value.NewRow?
  {
  }

  /** Assignments are no part of the story. */
  lemma StorySame(c0: Tables, c: Tables, c': Tables)
    requires Told(c0, c) && c' == c.(assignments := c'.assignments)
    ensures Told(c0, c') && GoneBy(c0, c') == GoneBy(c0, c)
  {
    assert Population(c') == Population(c);
    assert Appended(c0, c') == Appended(c0, c);
  }

  lemma UnbornAfterOther(s: State, step: Step, gone: set<Being>)
    requires Good(s) && Enabled(s, step) && !step.Commit?
    requires Unborn(s.txs, gone) && forall b :: b in gone ==> b.1 in s.issued
    ensures Unborn(After(s, step).txs, gone)
  {
    GoodTxs(s);
    hide Good, After, Enabled, TxOk, ActionOf, EntityOf, TargetOf;
    var s' := After(s, step);
    forall j | j in s'.txs && ActionOf(s'.txs[j].mutation) == Create && TargetOf(s'.txs[j]).Some?
      ensures (EntityOf(s'.txs[j].mutation), TargetOf(s'.txs[j]).value) !in gone
    {
      TargetsAreFresh(s, step, j);
    }
  }

  lemma StoryAfterOther(c0: Tables, s: State, step: Step)
    requires Good(s) && StoryOk(c0, s) && Enabled(s, step) && !step.Commit?
    ensures StoryOk(c0, After(s, step))
  {
    OtherStepsWriteNothing(s, step);
    IssuedGrows(s, step);
    hide Good, After, Enabled, Unborn, Told, GoneBy;
    StorySame(c0, s.committed, After(s, step).committed);
    UnbornAfterOther(s, step, GoneBy(c0, s.committed));
  }

  lemma IssuedGrows(s: State, step: Step)
    requires Enabled(s, step)
    ensures s.issued <= After(s, step).issued
  {
  }

  /** In every run the appended rows replay from the first population to the last. */
  lemma {:induction false} LogTellsWhoLives(s: State, steps: seq<Step>)
    requires Initial(s) && Legal(s, steps)
    ensures StoryOk(s.committed, Final(s, steps))
    decreases |steps|
  {
    if steps == [] {
      assert Appended(s.committed, s.committed) == [];
    } else {
      var init, step := steps[..|steps| - 1], steps[|steps| - 1];
      LogTellsWhoLives(s, init);
      GoodAlways(s, init);
      var f := Final(s, init);
      hide Good, StoryOk;
      if step.Commit? {
        StoryAfterCommit(s.committed, f, step.k, f.txs[step.k].phase.target);
      } else {
        StoryAfterOther(s.committed, f, step);
      }
    }
  }

  // ---------------------------------------------------------------- by id text

  /** The story read by the texts of the ids, as a reader of the log without a UUID parser would. */
  datatype TextCensus = TextCensus(live: set<(Entity, IdText)>, gone: set<(Entity, IdText)>)

  function TextTurn(census: TextCensus, row: AuditRow): Option<TextCensus> {
    var being := (row.entity, row.entityId);
    match row.action
    case Create =>
      if being in census.live || being in census.gone then None
      else Some(census.(live := census.live + {being}))
    case Update => if being in census.live then Some(census) else None
    case Delete =>
      if being in census.live then Some(TextCensus(census.live - {being}, census.gone + {being})) else None
  }

  function Texts(beings: set<Being>): set<(Entity, IdText)> {
    set b | b in beings :: (b.0, Canonical(b.1))
  }

  function TextReplay(start: set<Being>, rows: seq<AuditRow>): Option<TextCensus> {
    if rows == [] then Some(TextCensus(Texts(start), {}))
    else
      match TextReplay(start, rows[..|rows| - 1])
      case None => None
      case Some(census) => TextTurn(census, rows[|rows| - 1])
  }

  ghost predicate AllCanonical(rows: seq<AuditRow>) {
    forall i :: 0 <= i < |rows| ==> rows[i].entityId.Canonical?
  }

  lemma TextIn(beings: set<Being>, e: Entity, x: Uuid)
    ensures (e, Canonical(x)) in Texts(beings) <==> (e, x) in beings
  {
    if (e, x) in beings {
      assert (e, Canonical(x)) == ((e, x).0, Canonical((e, x).1));
    }
  }

  lemma TextsAdd(beings: set<Being>, e: Entity, x: Uuid)
    ensures Texts(beings + {(e, x)}) == Texts(beings) + {(e, Canonical(x))}
    ensures Texts(beings - {(e, x)}) == Texts(beings) - {(e, Canonical(x))}
  {
    forall b: (Entity, IdText)
      ensures b in Texts(beings + {(e, x)}) <==> b in Texts(beings) + {(e, Canonical(x))}
      ensures b in Texts(beings - {(e, x)}) <==> b in Texts(beings) - {(e, Canonical(x))}
    {
      if b.1.Canonical? {
        assert b == (b.0, Canonical(b.1.uuid));
        TextIn(beings, b.0, b.1.uuid);
        TextIn(beings + {(e, x)}, b.0, b.1.uuid);
        TextIn(beings - {(e, x)}, b.0, b.1.uuid);
      }
    }
  }

  /** A canonical row turns both censuses alike; any other row makes no sense by its text. */
  lemma TextTurnIs(census: Census, row: AuditRow)
    requires Turn(census, row).Some? && (row.action == Create ==> row.entityId.Canonical?)
    ensures TextTurn(TextCensus(Texts(census.live), Texts(census.gone)), row)
      == if row.entityId.Canonical? then
           Some(TextCensus(Texts(Turn(census, row).value.live), Texts(Turn(census, row).value.gone)))
         else None
  {
    var x := ParseUuid(row.entityId).value;
    TextIn(census.live, row.entity, x);
    TextIn(census.gone, row.entity, x);
    TextsAdd(census.live, row.entity, x);
    TextsAdd(census.gone, row.entity, x);
  }

  /** A sensible story makes sense by its texts exactly if every row spells its id canonically. */
  lemma {:induction false} TextReplayIff(start: set<Being>, rows: seq<AuditRow>)
    requires Replay(start, rows).Some?
    requires forall i :: 0 <= i < |rows| && rows[i].action == Create ==> rows[i].entityId.Canonical?
    ensures TextReplay(start, rows)
      == if AllCanonical(rows) then
           Some(TextCensus(Texts(Replay(start, rows).value.live), Texts(Replay(start, rows).value.gone)))
         else None
    decreases |rows|
  {
    if rows == [] {
      assert Texts({}) == {};
    } else {
      var init, last := rows[..|rows| - 1], rows[|rows| - 1];
      hide Turn, TextTurn, Texts;
      TextReplayIff(start, init);
      assert AllCanonical(rows) <==> AllCanonical(init) && last.entityId.Canonical?;
      TextTurnIs(Replay(start, init).value, last);
    }
  }

  /** A DeleteUser whose id is not spelled as the database spells it. */
  predicate Misspells(m: Mutation) {
    m.DeleteUser? && !m.userId.Canonical?
  }

  /** An entry carries a canonical text exactly when it was not written by such a DeleteUser. */
  lemma CanonicalEntryIff(s: State, steps: seq<Step>, i: nat)
    requires Initial(s) && Legal(s, steps)
    requires i < |Appended(s.committed, Final(s, steps).committed)|
    ensures var f := Final(s, steps); var row := Appended(s.committed, f.committed)[i];
      && i < |f.order| && f.order[i] in f.txs
      && (row.entityId.Canonical? <==> !Misspells(f.txs[f.order[i]].mutation))
      && (row.action == Create ==> row.entityId.Canonical?)
  {
    hide Initial, Legal, Final, Appended;
    EveryCommitIsAudited(s, steps);
  }

  /** No committed transaction is a DeleteUser in another spelling. */
  ghost predicate SpelledWell(s: State) {
    forall i :: 0 <= i < |s.order| && s.order[i] in s.txs ==> !Misspells(s.txs[s.order[i]].mutation)
  }

  /**
   Read by the texts of its ids, the log of a run makes sense, and tells who lives, if and only
   if no user was deleted under another spelling of the id.
   */
  lemma TextStoryIff(s: State, steps: seq<Step>)
    requires Initial(s) && Legal(s, steps)
    ensures var c, f := s.committed, Final(s, steps); var story := TextReplay(Population(c), Appended(c, f.committed));
      && (story.Some? <==> SpelledWell(f))
      && (story.Some? ==> story.value.live == Texts(Population(f.committed)))
  {
    LogTellsWhoLives(s, steps);
    EveryCommitIsAudited(s, steps);
    var c, f := s.committed, Final(s, steps);
    var rows := Appended(c, f.committed);
    hide Initial, Legal, Final, Appended, TextReplay, Replay, Population, Texts, Misspells, Unborn;
    assert |rows| == |f.order|;
    forall i | 0 <= i < |rows|
      ensures f.order[i] in f.txs && (rows[i].entityId.Canonical? <==> !Misspells(f.txs[f.order[i]].mutation))
      ensures rows[i].action == Create ==> rows[i].entityId.Canonical?
    {
      CanonicalEntryIff(s, steps, i);
    }
    TextReplayIff(Population(c), rows);
    assert SpelledWell(f) <==> AllCanonical(rows) by {
      SpelledWellIff(f, rows);
    }
  }

  lemma SpelledWellIff(f: State, rows: seq<AuditRow>)
    requires |rows| == |f.order|
    requires forall i :: 0 <= i < |rows| ==>
      f.order[i] in f.txs && (rows[i].entityId.Canonical? <==> !Misspells(f.txs[f.order[i]].mutation))
    ensures SpelledWell(f) <==> AllCanonical(rows)
  {
    hide Misspells;
    if AllCanonical(rows) {
      forall i | 0 <= i < |f.order| && f.order[i] in f.txs
        ensures !Misspells(f.txs[f.order[i]].mutation)
      {
        assert rows[i].entityId.Canonical?;
      }
    }
  }

  /** Such a run: the user is deleted, and the log's last entry names nobody by its text. */
  lemma RespelledEntry(s: State, u: Uuid, spelling: string) returns (steps: seq<Step>)
    requires Initial(s) && u in s.committed.users
    ensures Legal(s, steps) && OnlyOf(steps, 0, Mutation.DeleteUser(Respelled(u, spelling)))
    ensures var c, c' := s.committed, Final(s, steps).committed;
      && c'.users == c.users - {u}
      && c'.audit == c.audit + [AuditRow(User, Respelled(u, spelling), Delete, 0)]
      && TextReplay(Population(c), Appended(c, c')) == None
  {
    var m, c := Mutation.DeleteUser(Respelled(u, spelling)), s.committed;
    var ids := IdsAbove(s.issued);
    AdminAdmitted(m);
    DeleteUserSerial(c, u, spelling, ids);
    hide Serial, NewIds, Legal, Final, OnlyOf, IdsOf, Consistent, Admit;
    steps := SoloRun(s, 0, m, SOME_ADMIN, ids, 0);
    hide Alone, Initial;
    UnknownText(c, Final(s, steps).committed, u, spelling);
  }

  lemma DeleteUserSerial(c: Tables, u: Uuid, spelling: string, ids: nat -> Uuid)
    requires u in c.users
    ensures var r := Serial(c, Mutation.DeleteUser(Respelled(u, spelling)), Canonical(0), ids, 0);
      && r.Committed? && r.tables.users == c.users - {u}
      && r.tables.audit == c.audit + [AuditRow(User, Respelled(u, spelling), Delete, 0)]
  {
    var todo := [Statement.DeleteUser(u)];
    var effect := Exec(c, todo[0], ids(0));
    assert effect.Applied? && todo[1..] == [];
    assert RunTodo(c, todo, ids, 0) == Success(effect.tables);
  }

  lemma UnknownText(c: Tables, c': Tables, u: Uuid, spelling: string)
    requires c'.audit == c.audit + [AuditRow(User, Respelled(u, spelling), Delete, 0)]
    ensures TextReplay(Population(c), Appended(c, c')) == None
  {
    var rows := Appended(c, c');
    assert rows == [AuditRow(User, Respelled(u, spelling), Delete, 0)];
    assert rows[..0] == [];
    hide Population;
    assert TextReplay(Population(c), rows[..0]) == Some(TextCensus(Texts(Population(c)), {}));
    assert (Entity.User, Respelled(u, spelling)) !in Texts(Population(c));
  }
}
