/**
 Flag evaluation: the rule evaluators of internal/flags/service.go and attribute.go, and
 the simple meaning they have on tables whose rules match their flag's strategy.
 */
module Evaluation {
  import opened Wrappers
  import opened Schema
  import opened Errors
  import opened FlagRules

  /** The parsed JSON of an attribute rule. */
  datatype Condition = Condition(attribute: string, op: string, value: string, values: seq<string>)

  /** Library calls, left uninterpreted: strconv.Atoi, json.Unmarshal and 32-bit FNV-1a. */
  datatype Library = Library(
    atoi: string -> Option<int>, unmarshal: string -> Option<Condition>, fnv: string -> Word32)

  datatype EvaluationContext = EvaluationContext(userId: string, email: Option<string>)

  // ---------------------------------------------------------------- attribute.go

  function AttributeValue(attribute: string, ctx: EvaluationContext): string {
    if attribute == "userId" || attribute == "user_id" then ctx.userId
    else if attribute == "email" then (if ctx.email.Some? then ctx.email.value else "")
    else ""
  }

  predicate HasSuffix(s: string, suffix: string) {
    |suffix| <= |s| && s[|s| - |suffix|..] == suffix
  }

  function EvaluateSuffix(actual: string, suffix: string, rule: string): Result<bool, Error> {
    if suffix == "" then Failure(InvalidRule(rule, EmptySuffix))
    else Success(actual != "" && HasSuffix(actual, suffix))
  }

  /** The search loop of evaluateIn. */
  predicate Listed(actual: string, values: seq<string>) {
    values != [] && (actual == values[0] || Listed(actual, values[1..]))
  }

  function EvaluateIn(actual: string, values: seq<string>, rule: string): Result<bool, Error> {
    if values == [] then Failure(InvalidRule(rule, EmptyValues)) else Success(Listed(actual, values))
  }

  function EvaluateAttributeRule(lib: Library, ctx: EvaluationContext, rule: string): Result<bool, Error> {
    match lib.unmarshal(rule)
    case None => Failure(InvalidRule(rule, BadJson))
    case Some(c) =>
      var actual := AttributeValue(c.attribute, ctx);
      if c.op == "suffix" then EvaluateSuffix(actual, c.value, rule)
      else if c.op == "in" then EvaluateIn(actual, c.values, rule)
      else if c.op == "eq" then Success(actual == c.value)
      else Failure(InvalidRule(rule, UnknownOperator(c.op)))
  }

  // ---------------------------------------------------------------- service.go

  function EvaluatePercentageRule(lib: Library, userId: string, rule: string): Result<bool, Error> {
    match lib.atoi(rule)
    case None => Failure(InvalidRule(rule, NotANumber))
    case Some(p) =>
      if p < 0 || p > 100 then Failure(InvalidRule(rule, OutOfPercentRange))
      else Success(lib.fnv(userId) % 100 < p)
  }

  function EvaluatePercentageRules(lib: Library, userId: string, rules: seq<RuleRow>): Result<bool, Error> {
    if rules == [] then Success(true)
    else if rules[0].kind != PercentageRule then EvaluatePercentageRules(lib, userId, rules[1..])
    else EvaluatePercentageRule(lib, userId, rules[0].value)
  }

  function EvaluateAttributeRules(lib: Library, ctx: EvaluationContext, rules: seq<RuleRow>): Result<bool, Error> {
    if rules == [] then Success(false)
    else if rules[0].kind != AttributeRule then EvaluateAttributeRules(lib, ctx, rules[1..])
    else
      match EvaluateAttributeRule(lib, ctx, rules[0].value)
      case Failure(e) => Failure(e)
      case Success(matches) => if matches then Success(true) else EvaluateAttributeRules(lib, ctx, rules[1..])
  }

  function EvaluateRulesByStrategy(
    lib: Library, strategy: Strategy, ctx: EvaluationContext, rules: seq<RuleRow>): Result<bool, Error>
  {
    match strategy
    case PercentageStrategy => EvaluatePercentageRules(lib, ctx.userId, rules)
    case AttributeStrategy => EvaluateAttributeRules(lib, ctx, rules)
    case NoStrategy => Success(true)
  }

  /** EvaluateFlagInEnvironment: the flag as its first read finds it, the rules as its second one does. */
  function TwoReads(
    lib: Library, t: Tables, t': Tables, key: string, environment: string, ctx: EvaluationContext): Result<bool, Error>
  {
    if ctx.userId == "" then Failure(InvalidUserId)
    else
      match FindFlag(t.flags, key, environment)
      case None => Success(false)
      case Some(f) =>
        if !t.flags[f].enabled then Success(false)
        else AfterRules(lib, t.flags[f].strategy, ctx, RulesOf(t'.rules, f))
  }

  function AfterRules(
    lib: Library, strategy: Strategy, ctx: EvaluationContext, rules: seq<RuleRow>): Result<bool, Error>
  {
    if rules == [] then Success(true) else EvaluateRulesByStrategy(lib, strategy, ctx, rules)
  }

  /** Both reads on one state of the database. */
  function Evaluate(
    lib: Library, t: Tables, key: string, environment: string, ctx: EvaluationContext): Result<bool, Error>
  {
    TwoReads(lib, t, t, key, environment, ctx)
  }

  // ---------------------------------------------------------------- meaning

  /** Every stored rule is of the type its flag's strategy asks for. */
  ghost predicate Matched(t: Tables) {
    forall r :: r in t.rules && t.rules[r].flag in t.flags ==>
      StrategyOf(t.rules[r].kind) == t.flags[t.rules[r].flag].strategy
  }

  /** The stored rules of one flag are all of the type its strategy asks for. */
  ghost predicate FlagMatched(t: Tables, f: Uuid) {
    && f in t.flags
    && forall r :: r in t.rules && t.rules[r].flag == f ==> StrategyOf(t.rules[r].kind) == t.flags[f].strategy
  }

  /** The verdict of one rule, by its own type. */
  function RuleVerdict(lib: Library, ctx: EvaluationContext, rule: RuleRow): Result<bool, Error> {
    if rule.kind == PercentageRule then EvaluatePercentageRule(lib, ctx.userId, rule.value)
    else EvaluateAttributeRule(lib, ctx, rule.value)
  }

  predicate SaysNo(lib: Library, ctx: EvaluationContext, rule: RuleRow) {
    RuleVerdict(lib, ctx, rule) == Success(false)
  }

  /** Rule i is the first that does not plainly say no, and v is what it says. */
  ghost predicate DecidesAt(lib: Library, ctx: EvaluationContext, rules: seq<RuleRow>, i: nat, v: Result<bool, Error>) {
    && i < |rules|
    && RuleVerdict(lib, ctx, rules[i]) == v
    && v != Success(false)
    && forall j :: 0 <= j < i ==> SaysNo(lib, ctx, rules[j])
  }

  /** Left-to-right OR that stops at the first match or invalid rule. */
  ghost predicate OrOf(lib: Library, ctx: EvaluationContext, rules: seq<RuleRow>, v: Result<bool, Error>) {
    || (exists i: nat :: DecidesAt(lib, ctx, rules, i, v))
    || (v == Success(false) && forall j :: 0 <= j < |rules| ==> SaysNo(lib, ctx, rules[j]))
  }

  /** What an evaluation means: no strategy, no skipping, only the flag and its rules. */
  ghost predicate Means(
    lib: Library, t: Tables, key: string, environment: string, ctx: EvaluationContext, v: Result<bool, Error>)
  {
    if ctx.userId == "" then v == Failure(InvalidUserId)
    else
      match FindFlag(t.flags, key, environment)
      case None => v == Success(false)
      case Some(f) =>
        var rules := RulesOf(t.rules, f);
        if !t.flags[f].enabled then v == Success(false)
        else if rules == [] then v == Success(true)
        else if rules[0].kind == PercentageRule then v == RuleVerdict(lib, ctx, t.rules[Least(RuleIds(t.rules, f))])
        else OrOf(lib, ctx, rules, v)
  }

  lemma {:induction false} AttributeRulesAreOr(lib: Library, ctx: EvaluationContext, rules: seq<RuleRow>)
    requires forall i :: 0 <= i < |rules| ==> rules[i].kind == AttributeRule
    ensures OrOf(lib, ctx, rules, EvaluateAttributeRules(lib, ctx, rules))
  {
    if rules != [] {
      var v := EvaluateAttributeRules(lib, ctx, rules);
      if SaysNo(lib, ctx, rules[0]) {
        AttributeRulesAreOr(lib, ctx, rules[1..]);
        if i: nat :| DecidesAt(lib, ctx, rules[1..], i, v) {
          forall j | 0 <= j < i + 1
            ensures SaysNo(lib, ctx, rules[j])
          {
            if j > 0 {
              assert rules[1..][j - 1] == rules[j];
            }
          }
          assert DecidesAt(lib, ctx, rules, i + 1, v);
        } else {
          forall j | 0 <= j < |rules|
            ensures SaysNo(lib, ctx, rules[j])
          {
            if j > 0 {
              assert rules[1..][j - 1] == rules[j];
            }
          }
        }
      } else {
        assert DecidesAt(lib, ctx, rules, 0, v);
      }
    }
  }

  lemma RulesShareKind(t: Tables, f: Uuid)
    requires Consistent(t) && Matched(t) && f in t.flags
    ensures var rules := RulesOf(t.rules, f);
      forall i :: 0 <= i < |rules| ==>
        StrategyOf(rules[i].kind) == t.flags[f].strategy && rules[i].kind == rules[0].kind
  {
    var ids := Sorted(RuleIds(t.rules, f));
    var rules := RulesOf(t.rules, f);
    forall i | 0 <= i < |rules|
      ensures StrategyOf(rules[i].kind) == t.flags[f].strategy && !rules[i].kind.UntypedRule?
    {
      assert ids[i] in RuleIds(t.rules, f);
    }
  }

  /** On matched tables evaluation has its simple meaning; the skipping branches are never taken. */
  lemma EvaluationMeansItsRules(
    lib: Library, t: Tables, key: string, environment: string, ctx: EvaluationContext)
    requires Consistent(t) && Matched(t)
    ensures Means(lib, t, key, environment, ctx, Evaluate(lib, t, key, environment, ctx))
  {
    var found := FindFlag(t.flags, key, environment);
    if ctx.userId != "" && found.Some? && t.flags[found.value].enabled {
      var f := found.value;
      var rules := RulesOf(t.rules, f);
      if rules != [] {
        RulesShareKind(t, f);
        if rules[0].kind == PercentageRule {
          assert Sorted(RuleIds(t.rules, f))[0] == Least(RuleIds(t.rules, f));
        } else {
          AttributeRulesAreOr(lib, ctx, rules);
        }
      }
    }
  }

  /** What an evaluation means on any tables: rules of another type than the flag's strategy are passed over. */
  ghost predicate MeansByStrategy(
    lib: Library, t: Tables, key: string, environment: string, ctx: EvaluationContext, v: Result<bool, Error>)
  {
    if ctx.userId == "" then v == Failure(InvalidUserId)
    else
      match FindFlag(t.flags, key, environment)
      case None => v == Success(false)
      case Some(f) =>
        var rules := RulesOf(t.rules, f);
        if !t.flags[f].enabled then v == Success(false)
        else if rules == [] || t.flags[f].strategy == NoStrategy then v == Success(true)
        else if t.flags[f].strategy == PercentageStrategy then FirstOfKind(lib, ctx, rules, v)
        else OrOfKind(lib, ctx, rules, v)
  }

  ghost predicate FirstPercentageAt(
    lib: Library, ctx: EvaluationContext, rules: seq<RuleRow>, i: nat, v: Result<bool, Error>)
  {
    && i < |rules| && rules[i].kind == PercentageRule
    && EvaluatePercentageRule(lib, ctx.userId, rules[i].value) == v
    && forall j :: 0 <= j < i ==> rules[j].kind != PercentageRule
  }

  /** The first percentage rule decides; without one the flag is on. */
  ghost predicate FirstOfKind(lib: Library, ctx: EvaluationContext, rules: seq<RuleRow>, v: Result<bool, Error>) {
    || (v == Success(true) && forall i :: 0 <= i < |rules| ==> rules[i].kind != PercentageRule)
    || exists i: nat :: FirstPercentageAt(lib, ctx, rules, i, v)
  }

  /** The rule is passed over or says no. */
  predicate SilentOrNo(lib: Library, ctx: EvaluationContext, rule: RuleRow) {
    rule.kind != AttributeRule || EvaluateAttributeRule(lib, ctx, rule.value) == Success(false)
  }

  ghost predicate AttributeDecidesAt(
    lib: Library, ctx: EvaluationContext, rules: seq<RuleRow>, i: nat, v: Result<bool, Error>)
  {
    && i < |rules| && rules[i].kind == AttributeRule && v != Success(false)
    && EvaluateAttributeRule(lib, ctx, rules[i].value) == v
    && forall j :: 0 <= j < i ==> SilentOrNo(lib, ctx, rules[j])
  }

  /** Left-to-right OR over the attribute rules that stops at the first match or invalid one. */
  ghost predicate OrOfKind(lib: Library, ctx: EvaluationContext, rules: seq<RuleRow>, v: Result<bool, Error>) {
    || (v == Success(false) && forall i :: 0 <= i < |rules| ==> SilentOrNo(lib, ctx, rules[i]))
    || exists i: nat :: AttributeDecidesAt(lib, ctx, rules, i, v)
  }

  lemma {:induction false} PercentageRulesPassOver(lib: Library, ctx: EvaluationContext, rules: seq<RuleRow>)
    ensures FirstOfKind(lib, ctx, rules, EvaluatePercentageRules(lib, ctx.userId, rules))
  {
    hide EvaluatePercentageRule;
    var v := EvaluatePercentageRules(lib, ctx.userId, rules);
    if rules == [] {
    } else if rules[0].kind == PercentageRule {
      assert FirstPercentageAt(lib, ctx, rules, 0, v);
    } else {
      var rest := rules[1..];
      PercentageRulesPassOver(lib, ctx, rest);
      if i: nat :| FirstPercentageAt(lib, ctx, rest, i, v) {
        assert rules[i + 1] == rest[i] && forall j :: 0 < j < i + 1 ==> rules[j] == rest[j - 1];
        assert FirstPercentageAt(lib, ctx, rules, i + 1, v);
      } else {
        assert forall j :: 0 < j < |rules| ==> rules[j] == rest[j - 1];
      }
    }
  }

  lemma {:induction false} AttributeRulesPassOver(lib: Library, ctx: EvaluationContext, rules: seq<RuleRow>)
    ensures OrOfKind(lib, ctx, rules, EvaluateAttributeRules(lib, ctx, rules))
  {
    hide EvaluateAttributeRule;
    var v := EvaluateAttributeRules(lib, ctx, rules);
    if rules == [] {
    } else if SilentOrNo(lib, ctx, rules[0]) {
      var rest := rules[1..];
      AttributeRulesPassOver(lib, ctx, rest);
      if i: nat :| AttributeDecidesAt(lib, ctx, rest, i, v) {
        assert rules[i + 1] == rest[i] && forall j :: 0 < j < i + 1 ==> rules[j] == rest[j - 1];
        assert AttributeDecidesAt(lib, ctx, rules, i + 1, v);
      } else {
        assert forall j :: 0 < j < |rules| ==> rules[j] == rest[j - 1];
      }
    } else {
      assert AttributeDecidesAt(lib, ctx, rules, 0, v);
    }
  }

  /** So an evaluation, whatever rules its flag has, answers by the rules of its strategy alone. */
  lemma EvaluationMeansItsStrategy(
    lib: Library, t: Tables, key: string, environment: string, ctx: EvaluationContext)
    ensures MeansByStrategy(lib, t, key, environment, ctx, Evaluate(lib, t, key, environment, ctx))
  {
    hide FirstOfKind, OrOfKind, EvaluatePercentageRules, EvaluateAttributeRules, FindFlag, RulesOf;
    var found := FindFlag(t.flags, key, environment);
    if found.Some? {
      PercentageRulesPassOver(lib, ctx, RulesOf(t.rules, found.value));
      AttributeRulesPassOver(lib, ctx, RulesOf(t.rules, found.value));
    }
  }

  // ---------------------------------------------------------------- order

  ghost predicate AllSayNo(lib: Library, ctx: EvaluationContext, rules: seq<RuleRow>) {
    forall r :: r in rules ==> SaysNo(lib, ctx, r)
  }

  ghost predicate SomeSays(lib: Library, ctx: EvaluationContext, rules: seq<RuleRow>, v: Result<bool, Error>) {
    exists r :: r in rules && RuleVerdict(lib, ctx, r) == v
  }

  ghost predicate AllValid(lib: Library, ctx: EvaluationContext, rules: seq<RuleRow>) {
    forall r :: r in rules ==> RuleVerdict(lib, ctx, r).Success?
  }

  /** What the answer tells about the rules, whatever their order. */
  lemma AttributeAnswer(lib: Library, ctx: EvaluationContext, rules: seq<RuleRow>)
    requires forall r :: r in rules ==> r.kind == AttributeRule
    ensures EvaluateAttributeRules(lib, ctx, rules) == Success(true) ==> SomeSays(lib, ctx, rules, Success(true))
    ensures EvaluateAttributeRules(lib, ctx, rules) == Success(false) <==> AllSayNo(lib, ctx, rules)
    ensures EvaluateAttributeRules(lib, ctx, rules).Failure? ==>
      SomeSays(lib, ctx, rules, EvaluateAttributeRules(lib, ctx, rules))
  {
    AttributeRulesAreOr(lib, ctx, rules);
    var v := EvaluateAttributeRules(lib, ctx, rules);
    if i: nat :| DecidesAt(lib, ctx, rules, i, v) {
      assert rules[i] in rules;
    }
  }

  lemma SameMembers(rules: seq<RuleRow>, other: seq<RuleRow>)
    requires multiset(rules) == multiset(other)
    ensures forall r :: r in rules <==> r in other
    ensures |rules| == |other|
  {
    forall r
      ensures r in rules <==> r in other
    {
      assert r in multiset(rules) <==> r in multiset(other);
    }
    assert |rules| == |multiset(rules)| && |other| == |multiset(other)|;
  }

  /** Two orders of the same attribute rules never say true and false; valid rules always agree. */
  lemma AttributeOrderIrrelevant(lib: Library, ctx: EvaluationContext, rules: seq<RuleRow>, other: seq<RuleRow>)
    requires forall r :: r in rules ==> r.kind == AttributeRule
    requires multiset(rules) == multiset(other)
    ensures var v, w := EvaluateAttributeRules(lib, ctx, rules), EvaluateAttributeRules(lib, ctx, other);
      && (v == Success(false) <==> w == Success(false))
      && (AllValid(lib, ctx, rules) ==> v == w)
  {
    hide RuleVerdict, EvaluateAttributeRules;
    SameMembers(rules, other);
    AttributeAnswer(lib, ctx, rules);
    AttributeAnswer(lib, ctx, other);
    var v, w := EvaluateAttributeRules(lib, ctx, rules), EvaluateAttributeRules(lib, ctx, other);
    if AllValid(lib, ctx, rules) {
      assert AllValid(lib, ctx, other);
      assert v == Success(v.value) && w == Success(w.value);
      assert v.value == (v != Success(false)) && w.value == (w != Success(false));
    }
    assert v == Success(false) <==> w == Success(false) by {
      assert AllSayNo(lib, ctx, rules) <==> AllSayNo(lib, ctx, other);
    }
  }

  lemma FirstPercentageRuleDecides(lib: Library, ctx: EvaluationContext, rules: seq<RuleRow>)
    requires rules != [] && rules[0].kind == PercentageRule
    ensures EvaluatePercentageRules(lib, ctx.userId, rules) == RuleVerdict(lib, ctx, rules[0])
  {
  }

  /** The same rules with rule i in front. */
  function InFront(rules: seq<RuleRow>, i: nat): (other: seq<RuleRow>)
    requires i < |rules|
    ensures multiset(other) == multiset(rules) && other[0] == rules[i]
  {
    assert rules == rules[..i] + [rules[i]] + rules[i + 1..];
    [rules[i]] + rules[..i] + rules[i + 1..]
  }

  ghost predicate PercentageOrderIrrelevant(lib: Library, ctx: EvaluationContext, rules: seq<RuleRow>) {
    forall other: seq<RuleRow> :: multiset(other) == multiset(rules) ==>
      EvaluatePercentageRules(lib, ctx.userId, other) == EvaluatePercentageRules(lib, ctx.userId, rules)
  }

  /**
   Percentage rules are decided by the first one alone, and ids are random: the answer is
   the same in every order if and only if all rules give the same verdict.
   */
  lemma PercentageOrderIrrelevantIff(lib: Library, ctx: EvaluationContext, rules: seq<RuleRow>)
    requires rules != [] && forall r :: r in rules ==> r.kind == PercentageRule
    ensures PercentageOrderIrrelevant(lib, ctx, rules)
      <==> (forall r :: r in rules ==> RuleVerdict(lib, ctx, r) == RuleVerdict(lib, ctx, rules[0]))
  {
    hide RuleVerdict, EvaluatePercentageRules;
    FirstPercentageRuleDecides(lib, ctx, rules);
    if i :| 0 <= i < |rules| && RuleVerdict(lib, ctx, rules[i]) != RuleVerdict(lib, ctx, rules[0]) {
      FirstPercentageRuleDecides(lib, ctx, InFront(rules, i));
      assert !PercentageOrderIrrelevant(lib, ctx, rules);
    } else {
      forall other: seq<RuleRow> | multiset(other) == multiset(rules)
        ensures EvaluatePercentageRules(lib, ctx.userId, other) == EvaluatePercentageRules(lib, ctx.userId, rules)
      {
        SameMembers(rules, other);
        assert other[0] in rules;
        FirstPercentageRuleDecides(lib, ctx, other);
      }
    }
  }

  ghost predicate AttributeOrderSame(lib: Library, ctx: EvaluationContext, rules: seq<RuleRow>) {
    forall other: seq<RuleRow> :: multiset(other) == multiset(rules) ==>
      EvaluateAttributeRules(lib, ctx, other) == EvaluateAttributeRules(lib, ctx, rules)
  }

  /** All rules that do not say no say the same: a match, or one and the same complaint. */
  ghost predicate OneVoice(lib: Library, ctx: EvaluationContext, rules: seq<RuleRow>) {
    forall r, q :: r in rules && q in rules && !SaysNo(lib, ctx, r) && !SaysNo(lib, ctx, q) ==>
      RuleVerdict(lib, ctx, r) == RuleVerdict(lib, ctx, q)
  }

  lemma FirstOutspokenRuleDecides(lib: Library, ctx: EvaluationContext, rules: seq<RuleRow>)
    requires rules != [] && rules[0].kind == AttributeRule && !SaysNo(lib, ctx, rules[0])
    ensures EvaluateAttributeRules(lib, ctx, rules) == RuleVerdict(lib, ctx, rules[0])
  {
  }

  /** Attribute rules answer the same in every order if and only if they speak with one voice. */
  lemma AttributeOrderSameIff(lib: Library, ctx: EvaluationContext, rules: seq<RuleRow>)
    requires forall r :: r in rules ==> r.kind == AttributeRule
    ensures AttributeOrderSame(lib, ctx, rules) <==> OneVoice(lib, ctx, rules)
  {
    hide RuleVerdict, EvaluateAttributeRules;
    if OneVoice(lib, ctx, rules) {
      forall other: seq<RuleRow> | multiset(other) == multiset(rules)
        ensures EvaluateAttributeRules(lib, ctx, other) == EvaluateAttributeRules(lib, ctx, rules)
      {
        SameMembers(rules, other);
        AttributeOrderIrrelevant(lib, ctx, rules, other);
        AttributeRulesAreOr(lib, ctx, rules);
        AttributeRulesAreOr(lib, ctx, other);
      }
    } else {
      var r, q :| r in rules && q in rules && !SaysNo(lib, ctx, r) && !SaysNo(lib, ctx, q)
        && RuleVerdict(lib, ctx, r) != RuleVerdict(lib, ctx, q);
      var i :| 0 <= i < |rules| && rules[i] == r;
      var j :| 0 <= j < |rules| && rules[j] == q;
      FirstOutspokenRuleDecides(lib, ctx, InFront(rules, i));
      FirstOutspokenRuleDecides(lib, ctx, InFront(rules, j));
    }
  }

  // ---------------------------------------------------------------- single rules

  /** The text ends with a suffix. */
  ghost predicate EndsWith(text: string, suffix: string) {
    exists front: string :: text == front + suffix
  }

  lemma SuffixIsEnd(text: string, suffix: string)
    ensures HasSuffix(text, suffix) <==> EndsWith(text, suffix)
  {
    if HasSuffix(text, suffix) {
      assert text == text[..|text| - |suffix|] + suffix;
    }
  }

  lemma {:induction false} ListedIsMember(actual: string, values: seq<string>)
    ensures Listed(actual, values) <==> actual in values
  {
    if values != [] {
      ListedIsMember(actual, values[1..]);
      assert values == [values[0]] + values[1..];
    }
  }

  /** The text of the context that an attribute name stands for; nothing for an unknown name or a missing email. */
  ghost predicate StandsFor(attribute: string, ctx: EvaluationContext, text: string) {
    && (attribute == "userId" || attribute == "user_id" ==> text == ctx.userId)
    && (attribute == "email" && ctx.email.Some? ==> text == ctx.email.value)
    && (attribute == "email" && ctx.email.None? ==> text == "")
    && (attribute !in {"userId", "user_id", "email"} ==> text == "")
  }

  /** When an attribute rule matches, by the context's own fields, and when it is invalid and why. */
  lemma AttributeRuleIff(lib: Library, ctx: EvaluationContext, rule: string)
    ensures EvaluateAttributeRule(lib, ctx, rule) == Success(true) <==>
      && lib.unmarshal(rule).Some?
      && var c := lib.unmarshal(rule).value;
         exists text :: StandsFor(c.attribute, ctx, text) &&
           (|| (c.op == "suffix" && c.value != "" && EndsWith(text, c.value))
            || (c.op == "in" && text in c.values)
            || (c.op == "eq" && text == c.value))
    ensures EvaluateAttributeRule(lib, ctx, rule).Failure? <==>
      || lib.unmarshal(rule) == None
      || var c := lib.unmarshal(rule).value;
         || c.op !in {"suffix", "in", "eq"}
         || (c.op == "suffix" && c.value == "")
         || (c.op == "in" && c.values == [])
    ensures EvaluateAttributeRule(lib, ctx, rule).Failure? ==>
      EvaluateAttributeRule(lib, ctx, rule).error == InvalidRule(rule,
        match lib.unmarshal(rule)
        case None => BadJson
        case Some(c) =>
          if c.op == "suffix" then EmptySuffix else if c.op == "in" then EmptyValues else UnknownOperator(c.op))
  {
    if lib.unmarshal(rule).Some? {
      var c := lib.unmarshal(rule).value;
      var actual := AttributeValue(c.attribute, ctx);
      assert StandsFor(c.attribute, ctx, actual);
      assert forall text :: StandsFor(c.attribute, ctx, text) ==> text == actual;
      SuffixIsEnd(actual, c.value);
      ListedIsMember(actual, c.values);
    }
  }

  predicate LetIn(bucket: int, percentage: int) {
    bucket < percentage
  }

  /** Users whose hash falls into these buckets are in. */
  function BucketsIn(percentage: int): set<int> {
    set b | 0 <= b < 100 && LetIn(b, percentage)
  }

  lemma {:induction false} BucketCount(percentage: nat)
    requires percentage <= 100
    ensures |BucketsIn(percentage)| == percentage
  {
    if percentage > 0 {
      BucketCount(percentage - 1);
      assert BucketsIn(percentage) == BucketsIn(percentage - 1) + {percentage - 1};
    }
  }

  /** A percentage rule is valid from 0 to 100 and lets in exactly that many of 100 buckets. */
  lemma PercentageRuleIff(lib: Library, userId: string, rule: string)
    ensures EvaluatePercentageRule(lib, userId, rule).Success? <==>
      lib.atoi(rule).Some? && 0 <= lib.atoi(rule).value <= 100
    ensures EvaluatePercentageRule(lib, userId, rule).Success? ==>
      var p := lib.atoi(rule).value;
      && |BucketsIn(p)| == p
      && (EvaluatePercentageRule(lib, userId, rule) == Success(true) <==> lib.fnv(userId) % 100 < p)
      && (lib.fnv(userId) % 100 < p <==> lib.fnv(userId) % 100 in BucketsIn(p))
    ensures EvaluatePercentageRule(lib, userId, rule).Failure? ==>
      EvaluatePercentageRule(lib, userId, rule).error
        == InvalidRule(rule, if lib.atoi(rule) == None then NotANumber else OutOfPercentRange)
  {
    if lib.atoi(rule).Some? && 0 <= lib.atoi(rule).value <= 100 {
      BucketCount(lib.atoi(rule).value);
    }
  }
}
