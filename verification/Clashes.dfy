/**
 When updates of one flag clash: one brings rules that the flag takes, and another takes the
 flag to a different strategy. The condition is on the inputs and the stored strategy alone.
 */
module Clashes {
  import opened Wrappers
  import opened Schema
  import opened FlagRules

  // ---------------------------------------------------------------- the condition

  /** The type of the rules an update brings, if they are of one type and none is nil. */
  function KindBrought(change: UpdateFlagInput): Option<RuleType> {
    if change.rules.None? || change.rules.value == [] then None
    else
      match SameType(change.rules.value)
      case Success(kind) => if kind.UntypedRule? then None else Some(kind)
      case Failure(_) => None
  }

  /** The update takes a flag of this strategy to another strategy than the wanted one. */
  predicate Diverts(current: Strategy, change: UpdateFlagInput, wanted: Strategy) {
    match change.rules
    case None => current == NoStrategy
    case Some(list) =>
      || list == []
      || (current == NoStrategy && SameType(list).Success? && StrategyOf(SameType(list).value) != wanted)
  }

  /** One update brings rules the flag takes, and the other diverts the flag from them. */
  predicate ClashOneWay(current: Strategy, change: UpdateFlagInput, other: UpdateFlagInput) {
    match KindBrought(change)
    case None => false
    case Some(kind) =>
      current in {NoStrategy, StrategyOf(kind)} && Diverts(current, other, StrategyOf(kind))
  }

  predicate Clears(change: UpdateFlagInput) {
    change.rules == Some([])
  }

  /**
   Two of the updates clash on the strategy the flag has, or, once a third has cleared the
   flag, on none. No other strategy matters: an update is accepted on a flag that has one only
   if it keeps it or clears the flag.
   */
  ghost predicate ClashAmong(current: Strategy, changes: seq<UpdateFlagInput>) {
    ClashPair(current, changes) || ClashOnceCleared(changes)
  }

  ghost predicate ClashPair(current: Strategy, changes: seq<UpdateFlagInput>) {
    exists i, j :: 0 <= i < |changes| && 0 <= j < |changes| && i != j && ClashOneWay(current, changes[i], changes[j])
  }

  ghost predicate ClashOnceCleared(changes: seq<UpdateFlagInput>) {
    exists c, i, j ::
      && 0 <= c < |changes| && 0 <= i < |changes| && 0 <= j < |changes| && c != i && c != j && i != j
      && Clears(changes[c]) && ClashOneWay(NoStrategy, changes[i], changes[j])
  }

  /** Of two updates there is only the pair itself. */
  lemma ClashOfTwo(current: Strategy, a: UpdateFlagInput, b: UpdateFlagInput)
    ensures ClashAmong(current, [a, b]) <==> ClashOneWay(current, a, b) || ClashOneWay(current, b, a)
  {
    hide ClashOneWay;
    var changes := [a, b];
    if ClashOneWay(current, a, b) {
      assert ClashOneWay(current, changes[0], changes[1]);
    } else if ClashOneWay(current, b, a) {
      assert ClashOneWay(current, changes[1], changes[0]);
    }
  }

  lemma {:induction false} NoRowsIff(f: Uuid, rules: seq<Option<RuleInput>>)
    ensures RuleRows(f, rules) == [] <==> forall r :: r in rules ==> r == None
  {
    if rules != [] {
      var init, last := rules[..|rules| - 1], rules[|rules| - 1];
      NoRowsIff(f, init);
      assert rules == init + [last];
      assert forall r :: r in rules <==> r in init || r == last;
      match last
      case None =>
        assert RuleRows(f, rules) == RuleRows(f, init);
      case Some(input) =>
        assert last in rules;
        assert RuleRows(f, rules) == RuleRows(f, init) + [RuleRow(f, RuleTypeOf(last), input.value)];
    }
  }

  lemma BringsRowsIff(f: Uuid, change: UpdateFlagInput, current: Strategy)
    requires ResolveStrategyForUpdate(current, change.rules).Success?
    ensures NewRows(f, change.rules) != [] <==> KindBrought(change).Some?
    ensures KindBrought(change).Some? ==>
      ResolveStrategyForUpdate(current, change.rules) == Success(StrategyOf(KindBrought(change).value))
  {
    if change.rules.Some? && change.rules.value != [] {
      var list := change.rules.value;
      NoRowsIff(f, list);
      var kind := SameType(list).value;
      if kind.UntypedRule? {
        assert forall r :: r in list ==> r == None;
      } else {
        assert list[0] != None;
      }
    }
  }

  /** The clash in terms of what the updates decide: both accepted, different strategies, and rules to insert. */
  lemma ClashOneWayIff(current: Strategy, a: UpdateFlagInput, b: UpdateFlagInput, f: Uuid)
    ensures var g, h := ResolveStrategyForUpdate(current, a.rules), ResolveStrategyForUpdate(current, b.rules);
      ClashOneWay(current, a, b) <==> g.Success? && h.Success? && g != h && NewRows(f, a.rules) != []
  {
    var g := ResolveStrategyForUpdate(current, a.rules);
    hide NewRows;
    if g.Success? {
      BringsRowsIff(f, a, current);
    }
  }

  // ---------------------------------------------------------------- what the inputs exclude

  /** Whatever the flag has, the update leaves it with this strategy if it is accepted. */
  predicate GoesTo(current: Strategy, change: UpdateFlagInput, goal: Strategy) {
    && (ResolveStrategyForUpdate(goal, change.rules).Success? ==>
          ResolveStrategyForUpdate(goal, change.rules).value == goal)
    && (current == NoStrategy && ResolveStrategyForUpdate(NoStrategy, change.rules).Success? ==>
          ResolveStrategyForUpdate(NoStrategy, change.rules).value == goal)
  }

  /** An update that does not divert a flag goes to the wanted strategy. */
  lemma NotDiverting(current: Strategy, change: UpdateFlagInput, goal: Strategy)
    requires goal != NoStrategy && current in {NoStrategy, goal} && !Diverts(current, change, goal)
    ensures GoesTo(current, change, goal)
  {
  }

  /** The update that brings the rules goes to their strategy itself. */
  lemma BringerGoes(current: Strategy, change: UpdateFlagInput)
    requires KindBrought(change).Some?
    ensures GoesTo(current, change, StrategyOf(KindBrought(change).value))
  {
  }

  /** An update that a flag takes without rules diverts it once it is cleared, unless it wants the flag's own rules. */
  lemma TakenWithoutRulesDiverts(current: Strategy, change: UpdateFlagInput, other: UpdateFlagInput)
    requires current != NoStrategy && ResolveStrategyForUpdate(current, change.rules).Success?
    requires KindBrought(change).None? && KindBrought(other).Some?
    requires ResolveStrategyForUpdate(current, other.rules).Failure?
    ensures ClashOneWay(NoStrategy, other, change)
  {
  }
}
