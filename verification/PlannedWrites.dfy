/**
 The writes of an update or a delete of a flag, statement by statement, and what its commit
 leaves of the flag and its rules, among transactions that work on other flags.
 */
module PlannedWrites {
  import opened Wrappers
  import opened Schema
  import opened Statements
  import opened FlagRules
  import opened Protocol
  import opened Transactions
  import opened Isolation
  import opened AuditTrail
  import opened RolloutHistory
  import opened StrategyMatch

  // ---------------------------------------------------------------- statement by statement

  /** The plan of an update or delete of flag f. */
  ghost predicate Shaped(f: Uuid, full: seq<Statement>) {
    && full != []
    && (full[|full| - 1] == Statement.DeleteFlag(f)
        || (full[|full| - 1].UpdateFlag? && full[|full| - 1].flagId == f))
    && forall n :: 0 <= n < |full| - 1 ==>
         if n == 0 then full[n] == DeleteRules(f) else full[n].InsertRule? && full[n].rule.flag == f
  }

  ghost predicate Inserted(d: Delta, row: RuleRow) {
    exists r :: r in d.rules && d.rules[r] == Some(row)
  }

  function RowOf(last: Statement): Option<FlagRow> {
    if last.UpdateFlag? then Some(last.flag) else None
  }

  /** The writes after the first i statements of the plan, when nobody else changes the flag. */
  ghost predicate Along(c: Tables, d: Delta, f: Uuid, full: seq<Statement>, i: nat)
    requires full != []
  {
    && i <= |full|
    && (forall r :: r in d.rules && d.rules[r].Some? ==>
          d.rules[r].value.flag == f && InsertRule(d.rules[r].value) in full)
    && (forall n :: 0 <= n < i && full[n].InsertRule? ==> Inserted(d, full[n].rule))
    && (if full[0].DeleteRules? && i > 0 then forall r :: r in c.rules && c.rules[r].flag == f ==> Deletes(d.rules, r)
        else d.rules == map[])
    && d.flags == if i < |full| then map[] else map[f := RowOf(full[|full| - 1])]
  }

  lemma DeleteAlong(c: Tables, d: Delta, f: Uuid, full: seq<Statement>, id: Uuid, missed: set<Uuid>)
    requires Shaped(f, full) && Along(c, d, f, full, 0) && full[0].DeleteRules? && NewsElsewhere(c, missed, f)
    ensures Along(c, Record(c, d, full[0], id, missed), f, full, 1)
  {
    var d' := Record(c, d, full[0], id, missed);
    assert full[0] == DeleteRules(f) && |full| > 1;
    forall r | r in c.rules && c.rules[r].flag == f
      ensures Deletes(d'.rules, r)
    {
      assert r in RuleIds(View(c, d).rules, f) - missed;
    }
  }

  lemma InsertAlong(c: Tables, issued: set<Uuid>, d: Delta, f: Uuid, full: seq<Statement>, i: nat, id: Uuid,
    missed: set<Uuid>)
    requires Shaped(f, full) && Along(c, d, f, full, i) && i < |full| && full[i].InsertRule?
    requires IdsOf(c) <= issued && WrittenIds(d) <= issued && id !in issued
    ensures Along(c, Record(c, d, full[i], id, missed), f, full, i + 1)
  {
    var d' := Record(c, d, full[i], id, missed);
    assert id !in d.rules && id !in c.rules && i > 0;
    assert d'.rules[id] == Some(full[i].rule);
    forall n | 0 <= n < i + 1 && full[n].InsertRule?
      ensures Inserted(d', full[n].rule)
    {
      if n < i {
        var r :| r in d.rules && d.rules[r] == Some(full[n].rule);
        assert d'.rules[r] == d.rules[r];
      }
    }
    assert full[i] in full;
  }

  lemma LastAlong(c: Tables, d: Delta, f: Uuid, full: seq<Statement>, id: Uuid, missed: set<Uuid>)
    requires Shaped(f, full) && Along(c, d, f, full, |full| - 1)
    ensures Along(c, Record(c, d, full[|full| - 1], id, missed), f, full, |full|)
  {
    var last := full[|full| - 1];
    var d' := Record(c, d, last, id, missed);
    assert d'.flags == map[f := RowOf(last)];
    assert d'.rules == d.rules;
    forall n | 0 <= n < |full| && full[n].InsertRule?
      ensures Inserted(d', full[n].rule)
    {
      assert Inserted(d, full[n].rule);
    }
  }

  /** One statement of the plan more. */
  lemma StaysAlong(c: Tables, issued: set<Uuid>, d: Delta, f: Uuid, full: seq<Statement>, i: nat, id: Uuid,
    missed: set<Uuid>)
    requires Shaped(f, full) && Along(c, d, f, full, i) && i < |full|
    requires IdsOf(c) <= issued && WrittenIds(d) <= issued && (Mints(full[i]) ==> id !in issued)
    requires NewsElsewhere(c, missed, f)
    ensures Along(c, Record(c, d, full[i], id, missed), f, full, i + 1)
  {
    hide Along, Record, IdsOf, WrittenIds;
    if i == |full| - 1 {
      LastAlong(c, d, f, full, id, missed);
    } else if i == 0 {
      DeleteAlong(c, d, f, full, id, missed);
    } else {
      InsertAlong(c, issued, d, f, full, i, id, missed);
    }
  }

  lemma NothingAlong(c: Tables, f: Uuid, full: seq<Statement>)
    requires Shaped(f, full)
    ensures Along(c, NO_WRITES, f, full, 0)
  {
  }

  lemma PlanShaped(c: Tables, m: Mutation, f: Uuid, full: seq<Statement>)
    requires (m.UpdateFlag? || m.DeleteFlag?) && Decide(c, m) == Success(OnRow(f, full))
    ensures Shaped(f, full)
  {
    if m.UpdateFlag? {
      var before := RulesTodo(f, m.flagChange.rules);
      var row := EditedFlag(c.flags[f], m.flagChange).value;
      assert full == before + [Statement.UpdateFlag(f, row)];
      forall n | 0 <= n < |before|
        ensures if n == 0 then full[n] == DeleteRules(f) else full[n].InsertRule? && full[n].rule.flag == f
      {
        assert full[n] == before[n];
        if n > 0 {
          assert before[n] == InsertRule(RuleRows(f, m.flagChange.rules.value)[n - 1]);
        }
      }
    }
  }

  // ---------------------------------------------------------------- what the mutation leaves

  ghost predicate Stored(rules: map<Uuid, RuleRow>, row: RuleRow) {
    exists r :: r in rules && rules[r] == row
  }

  ghost predicate HasExactly(rules: map<Uuid, RuleRow>, f: Uuid, rows: seq<RuleRow>) {
    && (forall r :: r in rules && rules[r].flag == f ==> rules[r] in rows)
    && (forall i :: 0 <= i < |rows| ==> Stored(rules, rows[i]))
  }

  /** What a committed update or delete of f leaves of the flag and its rules. */
  ghost predicate Settled(c: Tables, c': Tables, m: Mutation, f: Uuid) {
    && f in c.flags
    && match m
       case DeleteFlag(_, _) => f !in c'.flags && RuleIds(c'.rules, f) == {}
       case UpdateFlag(change) =>
         && EditedFlag(c.flags[f], change).Success?
         && f in c'.flags && c'.flags[f] == EditedFlag(c.flags[f], change).value
         && (match change.rules
             case None => SameRules(c, c', f)
             case Some(list) => HasExactly(c'.rules, f, RuleRows(f, list)))
       case _ => false
  }

  lemma DeleteSettles(c: Tables, d: Delta, m: Mutation, f: Uuid)
    requires m.DeleteFlag? && f in c.flags && Along(c, d, f, [Statement.DeleteFlag(f)], 1)
    ensures Settled(c, View(c, d), m, f)
  {
    assert d.rules == map[] && d.flags == map[f := None];
  }

  /** Where the inserts stand in the plan of an update. */
  lemma InsertsStand(f: Uuid, list: seq<Option<RuleInput>>, row: FlagRow)
    ensures var full, rows := Replacement(f, list) + [Statement.UpdateFlag(f, row)], RuleRows(f, list);
      && full[0] == DeleteRules(f) && full[|full| - 1] == Statement.UpdateFlag(f, row) && |full| == |rows| + 2
      && forall n :: 0 <= n < |rows| ==> full[n + 1] == InsertRule(rows[n])
  {
    var full, rows := Replacement(f, list) + [Statement.UpdateFlag(f, row)], RuleRows(f, list);
    hide RuleRows;
    forall n | 0 <= n < |rows|
      ensures full[n + 1] == InsertRule(rows[n])
    {
      assert full[n + 1] == Replacement(f, list)[n + 1] == InsertsOf(rows)[n];
    }
  }

  lemma InsertsListed(f: Uuid, list: seq<Option<RuleInput>>, row: FlagRow, rule: RuleRow)
    requires InsertRule(rule) in Replacement(f, list) + [Statement.UpdateFlag(f, row)]
    ensures rule in RuleRows(f, list)
  {
    var full, rows := Replacement(f, list) + [Statement.UpdateFlag(f, row)], RuleRows(f, list);
    InsertsStand(f, list, row);
    hide RuleRows, Replacement;
    var n :| 0 <= n < |full| && full[n] == InsertRule(rule);
    assert full[n] == InsertRule(rows[n - 1]);
  }

  lemma ReplacedExactly(c: Tables, d: Delta, f: Uuid, list: seq<Option<RuleInput>>, row: FlagRow)
    requires var full := Replacement(f, list) + [Statement.UpdateFlag(f, row)]; Along(c, d, f, full, |full|)
    ensures HasExactly(View(c, d).rules, f, RuleRows(f, list))
  {
    var full, rows := Replacement(f, list) + [Statement.UpdateFlag(f, row)], RuleRows(f, list);
    var v := View(c, d);
    InsertsStand(f, list, row);
    hide RuleRows, Replacement;
    assert d.flags == map[f := Some(row)];
    forall r | r in v.rules && v.rules[r].flag == f
      ensures v.rules[r] in rows
    {
      assert r in d.rules && d.rules[r] == Some(v.rules[r]);
      InsertsListed(f, list, row, v.rules[r]);
    }
    forall n | 0 <= n < |rows|
      ensures Stored(v.rules, rows[n])
    {
      assert full[n + 1] == InsertRule(rows[n]);
      assert Inserted(d, full[n + 1].rule);
      var r :| r in d.rules && d.rules[r] == Some(rows[n]);
      assert r in v.rules && v.rules[r] == rows[n];
    }
  }

  lemma KeptRules(c: Tables, d: Delta, f: Uuid, row: FlagRow)
    requires d.rules == map[] && d.flags == map[f := Some(row)]
    ensures View(c, d).rules == c.rules
  {
    forall i
      ensures !Deletes(d.flags, i)
    {
    }
    assert Overlay(c.rules, map[]) == c.rules;
  }

  lemma WrittenFlags(c: Tables, d: Delta, f: Uuid, row: FlagRow)
    requires f in c.flags && d.flags == map[f := Some(row)]
    ensures View(c, d).flags == c.flags[f := row]
  {
    hide CascadeRules, CascadeAssignments;
    assert map[][f := Some(row)] == d.flags;
    OverlaySet(c.flags, map[], f, row);
    assert Overlay(c.flags, map[]) == c.flags;
  }

  lemma UpdateSettles(c: Tables, d: Delta, m: Mutation, f: Uuid, row: FlagRow)
    requires m.UpdateFlag? && f in c.flags && EditedFlag(c.flags[f], m.flagChange) == Success(row)
    requires var full := RulesTodo(f, m.flagChange.rules) + [Statement.UpdateFlag(f, row)]; Along(c, d, f, full, |full|)
    ensures Settled(c, View(c, d), m, f)
  {
    var full := RulesTodo(f, m.flagChange.rules) + [Statement.UpdateFlag(f, row)];
    assert full[|full| - 1] == Statement.UpdateFlag(f, row);
    assert d.flags == map[f := Some(row)];
    assert m.flagChange.rules == None ==> d.rules == map[];
    hide EditedFlag, View, Along, RuleRows, Replacement, HasExactly;
    WrittenFlags(c, d, f, row);
    match m.flagChange.rules
    case None => KeptRules(c, d, f, row);
    case Some(list) => ReplacedExactly(c, d, f, list, row);
  }

  /** The commit of an update or delete that ran alone. */
  lemma CommitSettles(c: Tables, d: Delta, m: Mutation, f: Uuid, full: seq<Statement>)
    requires (m.UpdateFlag? || m.DeleteFlag?) && Decide(c, m) == Success(OnRow(f, full))
    requires full != [] && Along(c, d, f, full, |full|)
    ensures Settled(c, View(c, d), m, f)
  {
    hide Along, View, FindFlag, RulesTodo, Settled, EditedFlag;
    if m.DeleteFlag? {
      DeleteSettles(c, d, m, f);
    } else {
      UpdateSettles(c, d, m, f, EditedFlag(c.flags[f], m.flagChange).value);
    }
  }

  // ---------------------------------------------------------------- states that agree on the flag

  lemma AlongSameRules(c: Tables, c': Tables, d: Delta, f: Uuid, full: seq<Statement>, i: nat)
    requires full != [] && Along(c, d, f, full, i) && SameRules(c, c', f)
    ensures Along(c', d, f, full, i)
  {
    forall r | r in c'.rules && c'.rules[r].flag == f
      ensures r in c.rules && c.rules[r].flag == f
    {
      assert SameRow(c.rules, c'.rules, r);
    }
  }

  lemma NewsSameFlag(c: Tables, c': Tables, news: set<Uuid>, more: set<Uuid>, f: Uuid)
    requires NewsElsewhere(c, news, f) && NewsElsewhere(c', more, f) && SameImage(c, c', FeatureFlag, f)
    ensures NewsElsewhere(c', news + more, f)
  {
    forall r | r in news && r in c'.rules
      ensures c'.rules[r].flag != f
    {
      assert c'.rules[r].flag == f ==> SameRow(c.rules, c'.rules, r);
    }
  }

  lemma ImageChain(a: Tables, b: Tables, c: Tables, f: Uuid)
    requires SameImage(a, b, FeatureFlag, f) && SameImage(b, c, FeatureFlag, f)
    ensures SameImage(a, c, FeatureFlag, f) && SameImage(b, a, FeatureFlag, f)
  {
    forall r | (r in a.rules && a.rules[r].flag == f) || (r in c.rules && c.rules[r].flag == f)
      ensures SameRow(a.rules, c.rules, r)
    {
      assert (r in a.rules && a.rules[r].flag == f) ==> SameRow(a.rules, b.rules, r);
      assert (r in c.rules && c.rules[r].flag == f) ==> SameRow(b.rules, c.rules, r);
    }
    forall r | (r in a.rules && a.rules[r].flag == f) || (r in b.rules && b.rules[r].flag == f)
      ensures SameRow(b.rules, a.rules, r)
    {
      assert SameRow(a.rules, b.rules, r);
    }
  }

  lemma SameImageSelf(c: Tables, c': Tables, f: Uuid)
    requires c'.flags == c.flags && c'.rules == c.rules
    ensures SameImage(c, c', FeatureFlag, f)
  {
  }

  /** What a mutation leaves is the same on both sides of changes elsewhere. */
  lemma SettledSameFlag(c: Tables, d: Tables, c': Tables, d': Tables, m: Mutation, f: Uuid)
    requires Settled(c, d, m, f) && SameImage(c, c', FeatureFlag, f) && SameImage(d, d', FeatureFlag, f)
    ensures Settled(c', d', m, f)
  {
    hide EditedFlag, HasExactly, SameRules, RuleIds;
    match m
    case DeleteFlag(_, _) => SameRulesSameIds(d, d', f);
    case UpdateFlag(change) =>
      match change.rules
      case None => RulesSquare(c, d, c', d', f);
      case Some(list) => ExactStays(d, d', f, RuleRows(f, list));
  }

  lemma RulesSquare(c: Tables, d: Tables, c': Tables, d': Tables, f: Uuid)
    requires SameRules(c, d, f) && SameRules(c, c', f) && SameRules(d, d', f)
    ensures SameRules(c', d', f)
  {
    forall r | (r in c'.rules && c'.rules[r].flag == f) || (r in d'.rules && d'.rules[r].flag == f)
      ensures SameRow(c'.rules, d'.rules, r)
    {
      assert (r in c'.rules && c'.rules[r].flag == f) ==> SameRow(c.rules, c'.rules, r);
      assert (r in d'.rules && d'.rules[r].flag == f) ==> SameRow(d.rules, d'.rules, r);
      assert SameRow(c.rules, d.rules, r) && SameRow(c.rules, c'.rules, r) && SameRow(d.rules, d'.rules, r);
    }
  }

  lemma ExactStays(d: Tables, d': Tables, f: Uuid, rows: seq<RuleRow>)
    requires HasExactly(d.rules, f, rows) && SameRules(d, d', f)
    requires forall i :: 0 <= i < |rows| ==> rows[i].flag == f
    ensures HasExactly(d'.rules, f, rows)
  {
    forall r | r in d'.rules && d'.rules[r].flag == f
      ensures d'.rules[r] in rows
    {
      assert SameRow(d.rules, d'.rules, r);
    }
    forall i | 0 <= i < |rows|
      ensures Stored(d'.rules, rows[i])
    {
      assert Stored(d.rules, rows[i]);
      var r :| r in d.rules && d.rules[r] == rows[i];
      assert SameRow(d.rules, d'.rules, r);
    }
  }
}
