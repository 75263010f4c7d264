/**
 Two transactions that hold disjoint locks: committing one leaves the other's view of the
 database as consistent as it was.
 */
module Merging {
  import opened Wrappers
  import opened Schema
  import opened Transactions

  /** No two rows written by the two sides claim one unique key. */
  ghost predicate ApartBy<V, K>(d1: map<Uuid, Option<V>>, d2: map<Uuid, Option<V>>, key: V -> K) {
    && d1.Keys !! d2.Keys
    && forall i, j :: i in d1 && j in d2 && d1[i].Some? && d2[j].Some? ==> key(d1[i].value) != key(d2[j].value)
  }

  /** Rules inserted by d1 are unknown to d2, and d2 does not delete their flags. */
  ghost predicate RulesApart(d1: Delta, d2: Delta) {
    forall r :: r in d1.rules && d1.rules[r].Some? ==>
      r !in d2.rules && !Deletes(d2.flags, d1.rules[r].value.flag)
  }

  /** What row locks and unique keys enforce between two open transactions. */
  ghost predicate Compatible(d1: Delta, d2: Delta) {
    && ApartBy(d1.users, d2.users, EmailOf)
    && ApartBy(d1.flags, d2.flags, FlagKeyOf)
    && ApartBy(d1.experiments, d2.experiments, ExperimentKeyOf)
    && d1.variants.Keys !! d2.variants.Keys
    && RulesApart(d1, d2)
    && RulesApart(d2, d1)
  }

  ghost predicate NeverDeletes<V>(d: map<Uuid, Option<V>>) {
    forall i :: i in d ==> d[i].Some?
  }

  lemma UniqueMerge<V, K>(
    rows: map<Uuid, V>, d1: map<Uuid, Option<V>>, d2: map<Uuid, Option<V>>, key: V -> K)
    requires UniqueBy(Overlay(rows, d1), key) && UniqueBy(Overlay(rows, d2), key)
    requires ApartBy(d1, d2, key)
    ensures UniqueBy(Overlay(Overlay(rows, d1), d2), key)
  {
    var o1, o2 := Overlay(rows, d1), Overlay(rows, d2);
    var both := Overlay(o1, d2);
    forall i, j | i in both && j in both && key(both[i]) == key(both[j])
      ensures i == j
    {
      if i !in d2 && j !in d2 {
        assert o1[i] == both[i] && o1[j] == both[j];
      } else if i !in d1 && j !in d1 {
        assert o2[i] == both[i] && o2[j] == both[j];
      }
    }
  }

  lemma UsersMerge(c: Tables, d1: Delta, d2: Delta)
    requires UsersOk(View(c, d1).users) && UsersOk(View(c, d2).users)
    requires Compatible(d1, d2)
    ensures UsersOk(View(View(c, d1), d2).users)
  {
    UniqueMerge(c.users, d1.users, d2.users, EmailOf);
    var o1, o2 := Overlay(c.users, d1.users), Overlay(c.users, d2.users);
    forall u | u in Overlay(o1, d2.users)
      ensures !Overlay(o1, d2.users)[u].role.UnknownRole?
    {
      if u in d2.users {
        assert o2[u] == Overlay(o1, d2.users)[u];
      }
    }
  }

  lemma RulesMerge(c: Tables, d1: Delta, d2: Delta)
    requires Consistent(View(c, d1)) && Consistent(View(c, d2))
    requires Compatible(d1, d2)
    ensures RulesOk(View(View(c, d1), d2).rules, View(View(c, d1), d2).flags)
  {
    hide UsersOk, VariantsOk, AssignmentsOk, UniqueBy, ApartBy, CascadeAssignments;
    var v1, v2, v := View(c, d1), View(c, d2), View(View(c, d1), d2);
    forall r | r in v.rules
      ensures v.rules[r].flag in v.flags && !v.rules[r].kind.UntypedRule?
    {
      if r in d2.rules {
        assert r in v2.rules && v2.rules[r] == v.rules[r];
      } else {
        assert r in v1.rules && v1.rules[r] == v.rules[r];
      }
    }
  }

  lemma AssignmentsMerge(c: Tables, d1: Delta, d2: Delta)
    requires Consistent(View(c, d1)) && Consistent(View(c, d2))
    requires Compatible(d1, d2)
    requires NeverDeletes(d2.experiments)
    ensures AssignmentsOk(View(View(c, d1), d2))
  {
    hide UsersOk, RulesOk, UniqueBy, ApartBy, RulesApart, CascadeRules;
    var v1, v2, v := View(c, d1), View(c, d2), View(View(c, d1), d2);
    forall a | a in v.assignments
      ensures a.0 in v.users && a.1 in v.experiments && v.assignments[a] in v.variants
      ensures v.variants[v.assignments[a]].experiment == a.1
    {
      assert a in v1.assignments && a in v2.assignments;
      var id := v.assignments[a];
      if id in d2.variants {
        assert v.variants[id] == v2.variants[id];
      } else {
        assert v.variants[id] == v1.variants[id];
      }
    }
  }

  /** Rows either side sees stay in the merge when nothing is deleted. */
  lemma NothingLost<V>(rows: map<Uuid, V>, d1: map<Uuid, Option<V>>, d2: map<Uuid, Option<V>>, i: Uuid)
    requires NeverDeletes(d1) && NeverDeletes(d2)
    requires i in Overlay(rows, d1) || i in Overlay(rows, d2)
    ensures i in Overlay(Overlay(rows, d1), d2)
  {
  }

  lemma VariantRowsMerge(
    rows: map<Uuid, VariantRow>, d1: map<Uuid, Option<VariantRow>>, d2: map<Uuid, Option<VariantRow>>,
    parents: map<Uuid, ExperimentRow>, p1: map<Uuid, Option<ExperimentRow>>, p2: map<Uuid, Option<ExperimentRow>>)
    requires VariantsOk(Overlay(rows, d1), Overlay(parents, p1)) && VariantsOk(Overlay(rows, d2), Overlay(parents, p2))
    requires NeverDeletes(p1) && NeverDeletes(p2)
    ensures VariantsOk(Overlay(Overlay(rows, d1), d2), Overlay(Overlay(parents, p1), p2))
  {
    var v1, v2, v := Overlay(rows, d1), Overlay(rows, d2), Overlay(Overlay(rows, d1), d2);
    forall i | i in v
      ensures v[i].experiment in Overlay(Overlay(parents, p1), p2) && 0 <= v[i].weight <= MAX_INTEGER
    {
      assert if i in d2 then i in v2 && v2[i] == v[i] else i in v1 && v1[i] == v[i];
      NothingLost(parents, p1, p2, v[i].experiment);
    }
  }

  lemma VariantsMerge(c: Tables, d1: Delta, d2: Delta)
    requires Consistent(View(c, d1)) && Consistent(View(c, d2))
    requires NeverDeletes(d1.experiments) && NeverDeletes(d2.experiments)
    ensures VariantsOk(View(View(c, d1), d2).variants, View(View(c, d1), d2).experiments)
  {
    hide UsersOk, RulesOk, AssignmentsOk, VariantsOk, UniqueBy, NeverDeletes, CascadeRules, CascadeAssignments;
    VariantRowsMerge(c.variants, d1.variants, d2.variants, c.experiments, d1.experiments, d2.experiments);
  }

  lemma KeysMerge(c: Tables, d1: Delta, d2: Delta)
    requires Consistent(View(c, d1)) && Consistent(View(c, d2)) && Compatible(d1, d2)
    ensures UniqueBy(View(View(c, d1), d2).flags, FlagKeyOf)
    ensures UniqueBy(View(View(c, d1), d2).experiments, ExperimentKeyOf)
  {
    hide UsersOk, RulesOk, VariantsOk, AssignmentsOk, UniqueBy, ApartBy, RulesApart;
    UniqueMerge(c.flags, d1.flags, d2.flags, FlagKeyOf);
    UniqueMerge(c.experiments, d1.experiments, d2.experiments, ExperimentKeyOf);
  }

  /** The merge keeps every constraint of the schema. */
  lemma MergeKeepsConsistent(c: Tables, d1: Delta, d2: Delta)
    requires Consistent(View(c, d1)) && Consistent(View(c, d2))
    requires Compatible(d1, d2)
    requires NeverDeletes(d1.experiments) && NeverDeletes(d2.experiments)
    ensures Consistent(View(View(c, d1), d2))
  {
    hide View, UsersOk, RulesOk, VariantsOk, AssignmentsOk, UniqueBy, Compatible, NeverDeletes;
    UsersMerge(c, d1, d2);
    KeysMerge(c, d1, d2);
    RulesMerge(c, d1, d2);
    VariantsMerge(c, d1, d2);
    AssignmentsMerge(c, d1, d2);
  }
}
