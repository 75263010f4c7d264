/**
 The tables of internal/db/schema.go as values, and the constraints PostgreSQL keeps on
 them: primary keys (the maps), UNIQUE, CHECK, FOREIGN KEY and the composite FOREIGN KEY
 of experiment_assignments.
 */
module Schema {
  import opened Wrappers

  /** A UUID as the 128-bit value PostgreSQL stores; ORDER BY id orders these values. */
  type Uuid = nat

  /** What a 32-bit hash returns. */
  type Word32 = x: nat | x < 0x1_0000_0000

  /**
   Text in which a client writes an id. PostgreSQL reads several spellings of one UUID
   (upper-case digits, braces, missing hyphens) and writes only the canonical one.
   */
  datatype IdText =
    | Canonical(uuid: Uuid)
    | Respelled(uuid: Uuid, spelling: string)
    | NotUuid(text: string)

  const EMPTY_ID: IdText := NotUuid("")

  /** The value PostgreSQL reads from an id text, if it accepts the text at all. */
  function ParseUuid(id: IdText): Option<Uuid> {
    if id.NotUuid? then None else Some(id.uuid)
  }

  datatype Strategy = NoStrategy | PercentageStrategy | AttributeStrategy

  /** UntypedRule is the empty type a nil rule input gets before it is dropped. */
  datatype RuleType = PercentageRule | AttributeRule | UntypedRule

  datatype Role = Admin | Developer | Viewer | UnknownRole(name: string)

  datatype Entity = FeatureFlag | User | Experiment

  datatype Action = Create | Update | Delete

  datatype UserRow = UserRow(email: string, role: Role, passwordHash: Option<string>)

  datatype FlagRow = FlagRow(
    key: string, description: Option<string>, enabled: bool, environment: string, strategy: Strategy)

  datatype RuleRow = RuleRow(flag: Uuid, kind: RuleType, value: string)

  datatype ExperimentRow = ExperimentRow(key: string, environment: string)

  datatype VariantRow = VariantRow(experiment: Uuid, name: string, weight: int)

  /** A variant as the store returns it. */
  datatype Variant = Variant(id: Uuid, row: VariantRow)

  datatype AuditRow = AuditRow(entity: Entity, entityId: IdText, action: Action, actor: Uuid)

  /** One state of the database; assignments map (user, experiment) to a variant. */
  datatype Tables = Tables(
    users: map<Uuid, UserRow>,
    flags: map<Uuid, FlagRow>,
    rules: map<Uuid, RuleRow>,
    experiments: map<Uuid, ExperimentRow>,
    variants: map<Uuid, VariantRow>,
    assignments: map<(Uuid, Uuid), Uuid>,
    audit: seq<AuditRow>)

  /** Largest value of an INTEGER column. */
  const MAX_INTEGER := 0x7FFF_FFFF

  function EmailOf(row: UserRow): string { row.email }

  function FlagKeyOf(row: FlagRow): (string, string) { (row.key, row.environment) }

  function ExperimentKeyOf(row: ExperimentRow): (string, string) { (row.key, row.environment) }

  /** A UNIQUE constraint: two rows with one key are one row. */
  ghost predicate UniqueBy<V, K>(rows: map<Uuid, V>, key: V -> K) {
    forall i, j :: i in rows && j in rows && key(rows[i]) == key(rows[j]) ==> i == j
  }

  ghost predicate UsersOk(users: map<Uuid, UserRow>) {
    && UniqueBy(users, EmailOf)
    && forall u :: u in users ==> !users[u].role.UnknownRole?
  }

  ghost predicate RulesOk(rules: map<Uuid, RuleRow>, flags: map<Uuid, FlagRow>) {
    forall r :: r in rules ==> rules[r].flag in flags && !rules[r].kind.UntypedRule?
  }

  ghost predicate VariantsOk(variants: map<Uuid, VariantRow>, experiments: map<Uuid, ExperimentRow>) {
    forall v :: v in variants ==> variants[v].experiment in experiments && 0 <= variants[v].weight <= MAX_INTEGER
  }

  ghost predicate AssignmentsOk(t: Tables) {
    forall a :: a in t.assignments ==>
      && a.0 in t.users
      && a.1 in t.experiments
      && t.assignments[a] in t.variants
      && t.variants[t.assignments[a]].experiment == a.1
  }

  /** Every constraint of the schema holds. */
  ghost predicate Consistent(t: Tables) {
    && UsersOk(t.users)
    && UniqueBy(t.flags, FlagKeyOf)
    && RulesOk(t.rules, t.flags)
    && UniqueBy(t.experiments, ExperimentKeyOf)
    && VariantsOk(t.variants, t.experiments)
    && AssignmentsOk(t)
  }

  /** Every id a table holds as a primary key. */
  function IdsOf(t: Tables): set<Uuid> {
    t.users.Keys + t.flags.Keys + t.rules.Keys + t.experiments.Keys + t.variants.Keys
  }

  lemma {:induction false} LeastExists(s: set<Uuid>)
    requires s != {}
    ensures exists m :: m in s && forall x :: x in s ==> m <= x
    decreases |s|
  {
    var y :| y in s;
    var rest := s - {y};
    if rest == {} {
      assert s == {y};
    } else {
      LeastExists(rest);
      var m :| m in rest && forall x :: x in rest ==> m <= x;
      var least := if y < m then y else m;
      assert forall x :: x in s ==> x == y || x in rest;
      assert least in s && forall x :: x in s ==> least <= x;
    }
  }

  /** The first id in ORDER BY id. */
  function Least(s: set<Uuid>): (m: Uuid)
    requires s != {}
    ensures m in s && forall x :: x in s ==> m <= x
  {
    LeastExists(s);
    var m :| m in s && forall x :: x in s ==> m <= x;
    m
  }

  /** ORDER BY id. */
  function Sorted(s: set<Uuid>): (ids: seq<Uuid>)
    ensures forall x :: x in ids <==> x in s
    ensures |ids| == |s|
    ensures forall i, j :: 0 <= i < j < |ids| ==> ids[i] < ids[j]
    decreases |s|
  {
    if s == {} then
      []
    else
      var m := Least(s);
      [m] + Sorted(s - {m})
  }

  /** The row a single-row SELECT returns. */
  function First(s: set<Uuid>): (id: Option<Uuid>)
    ensures id.None? <==> s == {}
    ensures id.Some? ==> id.value in s
  {
    if s == {} then None else Some(Least(s))
  }

  function FindFlag(flags: map<Uuid, FlagRow>, key: string, environment: string): (id: Option<Uuid>)
    ensures id.Some? ==> id.value in flags && FlagKeyOf(flags[id.value]) == (key, environment)
    ensures id.None? ==> forall i :: i in flags ==> FlagKeyOf(flags[i]) != (key, environment)
  {
    var hits := set i | i in flags && FlagKeyOf(flags[i]) == (key, environment);
    assert forall i :: i in flags && FlagKeyOf(flags[i]) == (key, environment) ==> i in hits;
    First(hits)
  }

  /** The flag with this key and environment is the one found. */
  lemma FoundByKey(t: Tables, f: Uuid, key: string, environment: string)
    requires Consistent(t) && f in t.flags && FlagKeyOf(t.flags[f]) == (key, environment)
    ensures FindFlag(t.flags, key, environment) == Some(f)
  {
    hide RulesOk, VariantsOk, AssignmentsOk, UsersOk;
    assert FindFlag(t.flags, key, environment).Some?;
  }

  function FindExperiment(
    experiments: map<Uuid, ExperimentRow>, key: string, environment: string): (id: Option<Uuid>)
    ensures id.Some? ==> id.value in experiments && ExperimentKeyOf(experiments[id.value]) == (key, environment)
    ensures id.None? ==> forall i :: i in experiments ==> ExperimentKeyOf(experiments[i]) != (key, environment)
  {
    var hits := set i | i in experiments && ExperimentKeyOf(experiments[i]) == (key, environment);
    assert forall i :: i in experiments && ExperimentKeyOf(experiments[i]) == (key, environment) ==> i in hits;
    First(hits)
  }

  function FindEmail(users: map<Uuid, UserRow>, email: string): (id: Option<Uuid>)
    ensures id.Some? ==> id.value in users && users[id.value].email == email
    ensures id.None? ==> forall i :: i in users ==> users[i].email != email
  {
    var hits := set i | i in users && users[i].email == email;
    assert forall i :: i in users && users[i].email == email ==> i in hits;
    First(hits)
  }

  /** Ids of the rules of one flag. */
  function RuleIds(rules: map<Uuid, RuleRow>, flag: Uuid): set<Uuid> {
    set r | r in rules && rules[r].flag == flag
  }

  /** Ids of the variants of one experiment. */
  function VariantIds(variants: map<Uuid, VariantRow>, experiment: Uuid): set<Uuid> {
    set v | v in variants && variants[v].experiment == experiment
  }

  /** GetVariantsByExperimentID: the variants of an experiment, ORDER BY id. */
  function VariantsOf(variants: map<Uuid, VariantRow>, experiment: Uuid): (list: seq<Variant>)
    ensures |list| == |VariantIds(variants, experiment)|
    ensures forall i :: 0 <= i < |list| ==>
      list[i].id in variants && list[i].row == variants[list[i].id] && list[i].row.experiment == experiment
    ensures forall i, j :: 0 <= i < j < |list| ==> list[i].id < list[j].id
  {
    var ids := Sorted(VariantIds(variants, experiment));
    assert forall i :: 0 <= i < |ids| ==> ids[i] in VariantIds(variants, experiment);
    seq(|ids|, i requires 0 <= i < |ids| => Variant(ids[i], variants[ids[i]]))
  }

  /** GetRulesByFlagID: the rules of a flag, ORDER BY id. */
  function RulesOf(rules: map<Uuid, RuleRow>, flag: Uuid): (list: seq<RuleRow>)
    ensures |list| == |RuleIds(rules, flag)|
    ensures forall i :: 0 <= i < |list| ==> list[i].flag == flag
  {
    var ids := Sorted(RuleIds(rules, flag));
    assert forall i :: 0 <= i < |ids| ==> ids[i] in RuleIds(rules, flag);
    seq(|ids|, i requires 0 <= i < |ids| => rules[ids[i]])
  }

  /** Every rule of the flag is listed once, and the ids ascend. */
  lemma RulesInIdOrder(rules: map<Uuid, RuleRow>, flag: Uuid) returns (ids: seq<Uuid>)
    ensures |ids| == |RulesOf(rules, flag)|
    ensures forall r :: r in ids <==> r in rules && rules[r].flag == flag
    ensures forall i :: 0 <= i < |ids| ==> ids[i] in rules && RulesOf(rules, flag)[i] == rules[ids[i]]
    ensures forall i, j :: 0 <= i < j < |ids| ==> ids[i] < ids[j]
  {
    ids := Sorted(RuleIds(rules, flag));
    assert forall i :: 0 <= i < |ids| ==> ids[i] in RuleIds(rules, flag);
  }

  function RowWeights(list: seq<Variant>): (ws: seq<int>)
    ensures |ws| == |list|
    ensures forall i :: 0 <= i < |list| ==> ws[i] == list[i].row.weight
  {
    seq(|list|, i requires 0 <= i < |list| => list[i].row.weight)
  }

  /** Position of a variant id in a list. */
  function VariantIndex(list: seq<Variant>, id: Uuid): (i: Option<nat>)
    ensures i.Some? ==> i.value < |list| && list[i.value].id == id
    ensures i.None? ==> forall k :: 0 <= k < |list| ==> list[k].id != id
  {
    if list == [] then None
    else if list[0].id == id then Some(0)
    else
      match VariantIndex(list[1..], id)
      case None => None
      case Some(k) => Some(k + 1)
  }
}
