/**
 What ReplaceRulesByFlagID leaves: exactly the given rules on the flag, and every other
 flag's rules untouched.
 */
module RuleReplacement {
  import opened Wrappers
  import opened Schema
  import opened Statements
  import opened Errors
  import opened Protocol
  import opened FlagStores

  /** The rows with these ids, in no particular order. */
  function Bag(ids: set<Uuid>, rules: map<Uuid, RuleRow>): multiset<RuleRow>
    requires ids <= rules.Keys
    decreases |ids|
  {
    if ids == {} then multiset{}
    else
      var m := Least(ids);
      multiset{rules[m]} + Bag(ids - {m}, rules)
  }

  lemma {:induction false} BagAdd(ids: set<Uuid>, x: Uuid, rules: map<Uuid, RuleRow>)
    requires ids <= rules.Keys && x in rules && x !in ids
    ensures Bag(ids + {x}, rules) == Bag(ids, rules) + multiset{rules[x]}
    decreases |ids|
  {
    var m := Least(ids + {x});
    if m == x {
      assert ids + {x} - {x} == ids;
    } else {
      assert m == Least(ids);
      assert ids + {x} - {m} == (ids - {m}) + {x};
      BagAdd(ids - {m}, x, rules);
    }
  }

  lemma {:induction false} BagSame(ids: set<Uuid>, rules: map<Uuid, RuleRow>, rules': map<Uuid, RuleRow>)
    requires ids <= rules.Keys && ids <= rules'.Keys && forall r :: r in ids ==> rules[r] == rules'[r]
    ensures Bag(ids, rules) == Bag(ids, rules')
    decreases |ids|
  {
    if ids != {} {
      BagSame(ids - {Least(ids)}, rules, rules');
    }
  }

  /** A listing without repetition holds exactly the rows of its ids. */
  lemma {:induction false} ListedBag(ids: set<Uuid>, rules: map<Uuid, RuleRow>, order: seq<Uuid>, list: seq<RuleRow>)
    requires ids <= rules.Keys && |list| == |order|
    requires forall x :: x in order <==> x in ids
    requires forall i, j :: 0 <= i < j < |order| ==> order[i] != order[j]
    requires forall i :: 0 <= i < |list| ==> order[i] in rules && list[i] == rules[order[i]]
    ensures multiset(list) == Bag(ids, rules)
    decreases |list|
  {
    hide Bag;
    if list == [] {
      assert ids == {};
      EmptyBag(rules);
    } else {
      var x, rest := order[0], ids - {order[0]};
      assert order == [x] + order[1..];
      assert list == [rules[x]] + list[1..];
      ListedBag(rest, rules, order[1..], list[1..]);
      assert rest + {x} == ids;
      BagAdd(rest, x, rules);
    }
  }

  lemma EmptyBag(rules: map<Uuid, RuleRow>)
    ensures Bag({}, rules) == multiset{}
  {
  }

  lemma RulesBag(rules: map<Uuid, RuleRow>, f: Uuid)
    ensures multiset(RulesOf(rules, f)) == Bag(RuleIds(rules, f), rules)
  {
    var ids := Sorted(RuleIds(rules, f));
    assert forall i :: 0 <= i < |ids| ==> ids[i] in RuleIds(rules, f);
    ListedBag(RuleIds(rules, f), rules, ids, RulesOf(rules, f));
  }

  /** One more rule of a flag. */
  lemma InsertAddsOne(rules: map<Uuid, RuleRow>, r: Uuid, row: RuleRow)
    requires r !in rules
    ensures multiset(RulesOf(rules[r := row], row.flag)) == multiset(RulesOf(rules, row.flag)) + multiset{row}
  {
    var f, after := row.flag, rules[r := row];
    RulesBag(rules, f);
    RulesBag(after, f);
    hide RulesOf, Bag;
    assert RuleIds(after, f) == RuleIds(rules, f) + {r};
    BagAdd(RuleIds(rules, f), r, after);
    BagSame(RuleIds(rules, f), rules, after);
  }

  lemma InsertEffect(t: Tables, row: RuleRow, id: Uuid)
    ensures if row.flag in t.flags && !row.kind.UntypedRule?
      then Exec(t, InsertRule(row), id) == Applied(t.(rules := t.rules[id := row]))
      else Exec(t, InsertRule(row), id).Rejected?
  {
  }

  /** Rules of flags other than f are the same in both. */
  ghost predicate OthersSame(rules: map<Uuid, RuleRow>, rules': map<Uuid, RuleRow>, f: Uuid) {
    forall r :: (r in rules && rules[r].flag != f ==> r in rules' && rules'[r] == rules[r])
             && (r in rules' && rules'[r].flag != f ==> r in rules && rules[r] == rules'[r])
  }

  /** Ids from n on are distinct and no rule has them. */
  ghost predicate NewRuleIds(ids: nat -> Uuid, n: nat, rules: map<Uuid, RuleRow>) {
    (forall i, j :: n <= i < j ==> ids(i) != ids(j)) && (forall i :: n <= i ==> ids(i) !in rules)
  }

  /** Only rules of f were added, and exactly these. */
  ghost predicate Added(t: Tables, t': Tables, f: Uuid, rows: multiset<RuleRow>) {
    && multiset(RulesOf(t'.rules, f)) == multiset(RulesOf(t.rules, f)) + rows
    && OthersSame(t.rules, t'.rules, f)
    && t' == t.(rules := t'.rules)
  }

  lemma AddedFirst(t: Tables, f: Uuid, row: RuleRow, id: Uuid)
    requires id !in t.rules && row.flag == f
    ensures Added(t, t.(rules := t.rules[id := row]), f, multiset{row})
  {
    hide RulesOf;
    InsertAddsOne(t.rules, id, row);
  }

  lemma AddedTwice(a: Tables, b: Tables, c: Tables, f: Uuid, x: multiset<RuleRow>, y: multiset<RuleRow>)
    requires Added(a, b, f, x) && Added(b, c, f, y)
    ensures Added(a, c, f, x + y)
  {
    hide RulesOf;
  }

  /** The schema accepts the rows: each has a type, and the flag exists. */
  ghost predicate Insertable(t: Tables, f: Uuid, rows: seq<RuleRow>) {
    rows == [] || (f in t.flags && forall i :: 0 <= i < |rows| ==> !rows[i].kind.UntypedRule?)
  }

  lemma {:induction false} InsertsAdd(t: Tables, f: Uuid, rows: seq<RuleRow>, ids: nat -> Uuid, n: nat)
    requires NewRuleIds(ids, n, t.rules)
    requires forall i :: 0 <= i < |rows| ==> rows[i].flag == f
    ensures match RunTodo(t, InsertsOf(rows), ids, n)
      case Success(t') => Insertable(t, f, rows) && Added(t, t', f, multiset(rows))
      case Failure(_) => !Insertable(t, f, rows)
    decreases |rows|
  {
    if rows == [] {
      assert InsertsOf(rows) == [];
    } else {
      InsertEffect(t, rows[0], ids(n));
      assert Insertable(t, f, rows) <==> f in t.flags && !rows[0].kind.UntypedRule? && Insertable(t, f, rows[1..]) by {
        assert forall i :: 1 <= i < |rows| ==> rows[i] == rows[1..][i - 1];
      }
      var todo := InsertsOf(rows);
      assert todo[0] == InsertRule(rows[0]) && todo[1..] == InsertsOf(rows[1..]);
      assert rows == [rows[0]] + rows[1..];
      hide RulesOf, Exec, InsertsOf, Added;
      if f in t.flags && !rows[0].kind.UntypedRule? {
        var next := t.(rules := t.rules[ids(n) := rows[0]]);
        assert NewRuleIds(ids, n + 1, next.rules);
        AddedFirst(t, f, rows[0], ids(n));
        InsertsAdd(next, f, rows[1..], ids, n + 1);
        var end := RunTodo(next, todo[1..], ids, n + 1);
        if end.Success? {
          AddedTwice(t, next, end.value, f, multiset{rows[0]}, multiset(rows[1..]));
        }
      }
    }
  }

  lemma Cleared(t: Tables, f: Uuid, id: Uuid) returns (next: Tables)
    ensures Exec(t, DeleteRules(f), id) == Applied(next) && next.flags == t.flags && next.rules.Keys <= t.rules.Keys
    ensures RulesOf(next.rules, f) == [] && OthersSame(t.rules, next.rules, f) && next == t.(rules := next.rules)
  {
    next := t.(rules := t.rules - RuleIds(t.rules, f));
    assert RuleIds(next.rules, f) == {};
  }

  /** After a replacement the flag has exactly the given rules; it fails only on rows the schema refuses. */
  lemma ReplacesExactly(t: Tables, f: Uuid, rows: seq<RuleRow>, ids: nat -> Uuid, n: nat)
    requires NewRuleIds(ids, n, t.rules)
    requires forall i :: 0 <= i < |rows| ==> rows[i].flag == f
    ensures match RunTodo(t, [DeleteRules(f)] + InsertsOf(rows), ids, n)
      case Success(t') =>
        && Insertable(t, f, rows)
        && multiset(RulesOf(t'.rules, f)) == multiset(rows)
        && OthersSame(t.rules, t'.rules, f)
        && t' == t.(rules := t'.rules)
      case Failure(_) => !Insertable(t, f, rows)
  {
    var todo := [DeleteRules(f)] + InsertsOf(rows);
    assert todo[0] == DeleteRules(f) && todo[1..] == InsertsOf(rows);
    hide RulesOf, Exec, InsertsOf;
    var next := Cleared(t, f, ids(n));
    InsertsAdd(next, f, rows, ids, n);
  }

  /**
   The standalone call, with any fault at any statement: on success the flag has exactly the
   given rules, on failure it has its old ones, and other flags never notice.
   */
  method ReplaceStandalone(store: FlagStore, f: Uuid, rows: seq<RuleRow>) returns (error: Option<Error>)
    requires store.Ready() && !store.inTx
    modifies store.db
    ensures store.Ready()
    ensures error == None ==>
      && multiset(RulesOf(store.db.committed.rules, f)) == multiset(ForFlag(f, rows))
      && OthersSame(old(store.db.committed.rules), store.db.committed.rules, f)
      && store.db.committed == old(store.db.committed).(rules := store.db.committed.rules)
    ensures error.Some? ==> store.db.committed == old(store.db.committed)
  {
    ghost var t, n := store.db.committed, store.db.minted;
    assert NewRuleIds(store.db.uuids, n, t.rules) by {
      forall i: nat | n <= i
        ensures store.db.uuids(i) !in t.rules
      {
        assert store.db.uuids(i) !in IdsOf(t);
      }
    }
    ReplacesExactly(t, f, ForFlag(f, rows), store.db.uuids, n);
    hide Consistent, IdsOf, RunTodo, RulesOf;
    error := store.ReplaceRulesByFlagId(f, rows);
  }
}
