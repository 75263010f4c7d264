/**
 Variant weights of internal/experiments/service.go: validation that sums in a 64-bit
 machine int, and the mapping of 100 buckets to variants.
 */
module Weights {
  import opened Wrappers
  import opened Schema
  import opened Errors

  const WORD: int := 0x1_0000_0000_0000_0000

  const HALF_WORD: int := 0x8000_0000_0000_0000

  const WEIGHT_SUM := 100

  /** Go's int on the platforms the service runs on. */
  type GoInt = x: int | -HALF_WORD <= x < HALF_WORD

  datatype VariantInput = VariantInput(name: string, weight: GoInt)

  /** Two's complement wrap-around of a 64-bit addition. */
  function Wrap(x: int): GoInt {
    (x + HALF_WORD) % WORD - HALF_WORD
  }

  function WeightsOf(variants: seq<VariantInput>): (ws: seq<int>)
    ensures |ws| == |variants|
    ensures forall i :: 0 <= i < |variants| ==> ws[i] == variants[i].weight
  {
    seq(|variants|, i requires 0 <= i < |variants| => variants[i].weight)
  }

  /** Mathematical sum. */
  function Sum(ws: seq<int>): int {
    if ws == [] then 0 else Sum(ws[..|ws| - 1]) + ws[|ws| - 1]
  }

  /** The sum the loop accumulates. */
  function MachineSum(ws: seq<int>): GoInt {
    if ws == [] then 0 else Wrap(MachineSum(ws[..|ws| - 1]) + ws[|ws| - 1])
  }

  lemma WrapCongruent(x: int, y: int)
    ensures Wrap(Wrap(x) + y) == Wrap(x + y)
  {
    var q := (x + HALF_WORD) / WORD;
    assert x == Wrap(x) + q * WORD;
    assert (Wrap(x) + y + HALF_WORD) + q * WORD == x + y + HALF_WORD;
    ModOffset(Wrap(x) + y + HALF_WORD, q);
  }

  lemma WrapsAway(x: int)
    ensures (x - Wrap(x)) % WORD == 0
  {
    var q := (x + HALF_WORD) / WORD;
    assert x - Wrap(x) == 0 + q * WORD;
    ModOffset(0, q);
  }

  lemma ModOffset(a: int, q: int)
    ensures (a + q * WORD) % WORD == a % WORD
  {
    var d := a / WORD;
    assert a + q * WORD == a % WORD + (d + q) * WORD;
  }

  /** The accumulated sum is a machine int, and the mathematical sum up to a multiple of 2^64. */
  lemma {:induction false} MachineSumWraps(ws: seq<int>)
    ensures MachineSum(ws) == Wrap(Sum(ws))
    ensures (Sum(ws) - MachineSum(ws)) % WORD == 0
  {
    WrapsAway(Sum(ws));
    if ws != [] {
      var init := ws[..|ws| - 1];
      MachineSumWraps(init);
      WrapCongruent(Sum(init), ws[|ws| - 1]);
    }
  }

  ghost predicate NonNegative(ws: seq<int>) {
    forall i :: 0 <= i < |ws| ==> 0 <= ws[i]
  }

  function FirstNegative(ws: seq<int>): (k: nat)
    ensures k <= |ws| && (forall i :: 0 <= i < k ==> 0 <= ws[i]) && (k < |ws| ==> ws[k] < 0)
  {
    if ws == [] || ws[0] < 0 then 0 else 1 + FirstNegative(ws[1..])
  }

  /** What validateVariantWeights answers. */
  function Verdict(ws: seq<int>): Result<(), Error> {
    var k := FirstNegative(ws);
    if ws == [] then Failure(InvalidWeights(0, [], NoVariants))
    else if k < |ws| then Failure(InvalidWeights(MachineSum(ws[..k]), ws[..k + 1], NegativeWeight))
    else if MachineSum(ws) != WEIGHT_SUM then Failure(InvalidWeights(MachineSum(ws), ws, WrongSum))
    else Success(())
  }

  method ValidateVariantWeights(variants: seq<VariantInput>) returns (r: Result<(), Error>)
    ensures r == Verdict(WeightsOf(variants))
  {
    if |variants| == 0 {
      return Failure(InvalidWeights(0, [], NoVariants));
    }
    var sum: GoInt := 0;
    var weights: seq<int> := [];
    ghost var all := WeightsOf(variants);
    for i := 0 to |variants|
      invariant weights == all[..i]
      invariant sum == MachineSum(all[..i])
      invariant forall j :: 0 <= j < i ==> 0 <= all[j]
    {
      var w := variants[i].weight;
      assert all[..i + 1] == all[..i] + [w] && all[..i + 1][..i] == all[..i];
      if w < 0 {
        weights := weights + [w];
        return Failure(InvalidWeights(sum, weights, NegativeWeight));
      }
      sum := Wrap(sum + w);
      weights := weights + [w];
    }
    assert all[..|variants|] == all;
    if sum != WEIGHT_SUM {
      return Failure(InvalidWeights(sum, weights, WrongSum));
    }
    return Success(());
  }

  lemma {:induction false} SumBounds(ws: seq<int>, cap: nat)
    requires forall i :: 0 <= i < |ws| ==> 0 <= ws[i] <= cap
    ensures 0 <= Sum(ws) <= |ws| * cap
  {
    if ws != [] {
      SumBounds(ws[..|ws| - 1], cap);
      assert |ws| * cap == (|ws| - 1) * cap + cap;
    }
  }

  /** Number of variants below which a wrapped sum cannot pass for 100. */
  const WRAP_COUNT: nat := 0x2_0000_0005

  /** Weights that pass validation and fit the INTEGER column. */
  ghost predicate Accepted(ws: seq<int>) {
    Verdict(ws).Success? && forall i :: 0 <= i < |ws| ==> ws[i] <= MAX_INTEGER
  }

  lemma UnwrapSmall(s: int)
    requires 0 <= s < WORD + WEIGHT_SUM && Wrap(s) == WEIGHT_SUM
    ensures s == WEIGHT_SUM
  {
    var q := (s + HALF_WORD) / WORD;
    assert s == WEIGHT_SUM + q * WORD;
  }

  /** Below the count, accepted weights really sum to 100. */
  lemma AcceptedSumIsExact(ws: seq<int>)
    requires Accepted(ws)
    requires |ws| < WRAP_COUNT
    ensures ws != [] && NonNegative(ws) && Sum(ws) == WEIGHT_SUM
  {
    MachineSumWraps(ws);
    SumBounds(ws, MAX_INTEGER);
    UnwrapSmall(Sum(ws));
  }

  lemma {:induction false} SumOfConstant(n: nat, w: int)
    ensures Sum(seq(n, _ => w)) == n * w
  {
    if n > 0 {
      assert seq(n, _ => w)[..n - 1] == seq(n - 1, _ => w);
      SumOfConstant(n - 1, w);
      assert n * w == (n - 1) * w + w;
    }
  }

  lemma {:induction false} SumAppend(a: seq<int>, b: seq<int>)
    ensures Sum(a + b) == Sum(a) + Sum(b)
  {
    if b == [] {
      assert a + b == a;
    } else {
      assert (a + b)[..|a + b| - 1] == a + b[..|b| - 1];
      SumAppend(a, b[..|b| - 1]);
    }
  }

  /** From the count on, some accepted list sums to 2^64 + 100. */
  lemma WrongSumAccepted(n: nat) returns (ws: seq<int>)
    requires n >= WRAP_COUNT
    ensures |ws| == n && Accepted(ws) && Sum(ws) != WEIGHT_SUM
  {
    var big := seq(0x2_0000_0004, _ => MAX_INTEGER);
    var rest := WORD + WEIGHT_SUM - 0x2_0000_0004 * MAX_INTEGER;
    var zeros := seq(n - 0x2_0000_0005, _ => 0);
    ws := big + [rest] + zeros;
    SumOfConstant(0x2_0000_0004, MAX_INTEGER);
    SumOfConstant(n - 0x2_0000_0005, 0);
    SumAppend(big, [rest]);
    SumAppend(big + [rest], zeros);
    assert Sum([rest]) == rest by {
      assert [rest][..0] == [];
    }
    assert Sum(ws) == WORD + WEIGHT_SUM;
    MachineSumWraps(ws);
  }

  /** Validation is exact for lists of n weights if and only if n is below the count. */
  lemma ValidationExactIff(n: nat)
    ensures n < WRAP_COUNT <==> forall ws: seq<int> :: |ws| == n && Accepted(ws) ==> Sum(ws) == WEIGHT_SUM
  {
    if n < WRAP_COUNT {
      forall ws: seq<int> | |ws| == n && Accepted(ws)
        ensures Sum(ws) == WEIGHT_SUM
      {
        AcceptedSumIsExact(ws);
      }
    } else {
      var ws := WrongSumAccepted(n);
    }
  }

  /** The index assignVariantByWeight selects for a bucket. */
  function Pick(bucket: int, ws: seq<int>): (i: nat)
    requires ws != []
    ensures i < |ws|
    decreases |ws|
  {
    if bucket < ws[0] || |ws| == 1 then 0 else 1 + Pick(bucket - ws[0], ws[1..])
  }

  lemma {:induction false} SumHead(ws: seq<int>)
    requires ws != []
    ensures Sum(ws) == ws[0] + Sum(ws[1..])
  {
    assert ws == [ws[0]] + ws[1..];
    SumAppend([ws[0]], ws[1..]);
    assert [ws[0]][..0] == [];
  }

  /** A bucket below the total falls into the weight range of the picked variant. */
  lemma {:induction false} PickInRange(bucket: nat, ws: seq<int>)
    requires ws != [] && NonNegative(ws) && bucket < Sum(ws)
    ensures var i := Pick(bucket, ws); Sum(ws[..i]) <= bucket < Sum(ws[..i + 1])
  {
    SumHead(ws);
    var i := Pick(bucket, ws);
    if i == 0 {
      assert ws[..1] == [ws[0]];
      if |ws| == 1 {
        assert ws[1..] == [];
      }
    } else {
      PickInRange(bucket - ws[0], ws[1..]);
      SumHead(ws[..i]);
      SumHead(ws[..i + 1]);
      assert ws[..i][1..] == ws[1..][..i - 1];
      assert ws[..i + 1][1..] == ws[1..][..i];
    }
  }

  lemma {:induction false} PrefixMonotone(ws: seq<int>, i: nat, j: nat)
    requires NonNegative(ws) && i <= j <= |ws|
    ensures Sum(ws[..i]) <= Sum(ws[..j])
    decreases j - i
  {
    if i < j {
      PrefixMonotone(ws, i, j - 1);
      assert ws[..j][..j - 1] == ws[..j - 1];
    }
  }

  /** Index i is picked for exactly the buckets of its range. */
  lemma PickIff(bucket: nat, ws: seq<int>, i: nat)
    requires ws != [] && NonNegative(ws) && bucket < Sum(ws) && i < |ws|
    ensures Pick(bucket, ws) == i <==> Sum(ws[..i]) <= bucket < Sum(ws[..i + 1])
  {
    PickInRange(bucket, ws);
    var p := Pick(bucket, ws);
    if p < i {
      PrefixMonotone(ws, p + 1, i);
    } else if i < p {
      PrefixMonotone(ws, i + 1, p);
    }
  }

  function Range(lo: int, hi: int): (s: set<int>)
    ensures forall b :: b in s <==> lo <= b < hi
    decreases hi - lo
  {
    if hi <= lo then {} else Range(lo, hi - 1) + {hi - 1}
  }

  lemma {:induction false} RangeSize(lo: int, hi: int)
    requires lo <= hi
    ensures |Range(lo, hi)| == hi - lo
    decreases hi - lo
  {
    if lo < hi {
      RangeSize(lo, hi - 1);
    }
  }

  /** Buckets of hash % 100 for which variant i is selected. */
  function BucketsOf(ws: seq<int>, i: nat): set<int>
    requires ws != []
  {
    set b | 0 <= b < WEIGHT_SUM && Pick(b, ws) == i
  }

  /** Each variant receives exactly its weight in buckets, whatever the order of the list. */
  lemma ExactApportionment(ws: seq<int>, i: nat)
    requires ws != [] && NonNegative(ws) && Sum(ws) == WEIGHT_SUM && i < |ws|
    ensures |BucketsOf(ws, i)| == ws[i]
    ensures ws[i] == 0 ==> BucketsOf(ws, i) == {}
    ensures forall b :: b in BucketsOf(ws, i) ==> b < Sum(ws[..i + 1])
  {
    var lo, hi := Sum(ws[..i]), Sum(ws[..i + 1]);
    assert ws[..i + 1][..i] == ws[..i];
    assert ws[..|ws|] == ws;
    PrefixMonotone(ws, 0, i);
    PrefixMonotone(ws, i, i + 1);
    PrefixMonotone(ws, i + 1, |ws|);
    forall b | 0 <= b < WEIGHT_SUM
      ensures Pick(b, ws) == i <==> lo <= b < hi
    {
      PickIff(b, ws, i);
    }
    assert BucketsOf(ws, i) == Range(lo, hi);
    RangeSize(lo, hi);
  }

  /** The cumulative loop of assignVariantByWeight. */
  method PickByWeight(bucket: int, ws: seq<int>) returns (i: nat)
    requires ws != []
    ensures i == Pick(bucket, ws)
  {
    var cum := 0;
    for k := 0 to |ws|
      invariant cum == Sum(ws[..k])
      invariant k < |ws| ==> Pick(bucket, ws) == k + Pick(bucket - cum, ws[k..])
      invariant k == |ws| ==> Pick(bucket, ws) == |ws| - 1
    {
      assert ws[..k + 1][..k] == ws[..k];
      assert ws[k..][1..] == ws[k + 1..];
      cum := cum + ws[k];
      if bucket < cum {
        return k;
      }
    }
    return |ws| - 1;
  }

  /** FNV-1a over a user id text followed by an experiment id, left uninterpreted. */
  type Hash = (IdText, Uuid) -> Word32

  /** assignVariantByWeight. */
  function Assigned(hash: Hash, user: IdText, experiment: Uuid, list: seq<Variant>): (v: Variant)
    requires list != []
    ensures v in list
  {
    list[Pick(hash(user, experiment) % WEIGHT_SUM, RowWeights(list))]
  }

  /** Variants with different ids whose weights share out 100. */
  ghost predicate Shared(list: seq<Variant>) {
    && list != [] && NonNegative(RowWeights(list)) && Sum(RowWeights(list)) == 100
    && forall i, j :: 0 <= i < j < |list| ==> list[i].id != list[j].id
  }

  /** The bucket lies in the share of variant i, the shares being laid out in the order of the list. */
  ghost predicate InShare(list: seq<Variant>, i: nat, bucket: int)
    requires i < |list|
  {
    Sum(RowWeights(list)[..i]) <= bucket < Sum(RowWeights(list)[..i + 1])
  }

  /** v is the variant into whose share the hash of the user's text and the experiment falls. */
  ghost predicate ChosenByShare(hash: Hash, user: IdText, experiment: Uuid, list: seq<Variant>, v: Variant) {
    && v in list
    && forall i: nat :: i < |list| ==> (v == list[i] <==> InShare(list, i, hash(user, experiment) % 100))
  }

  lemma AssignedByShare(hash: Hash, user: IdText, experiment: Uuid, list: seq<Variant>)
    requires Shared(list)
    ensures ChosenByShare(hash, user, experiment, list, Assigned(hash, user, experiment, list))
  {
    var bucket, ws := hash(user, experiment) % 100, RowWeights(list);
    var v := Assigned(hash, user, experiment, list);
    forall i: nat | i < |list|
      ensures v == list[i] <==> InShare(list, i, bucket)
    {
      PickIff(bucket, ws, i);
    }
  }

  method AssignVariantByWeight(
    hash: Hash, user: IdText, experiment: Uuid, list: seq<Variant>) returns (v: Variant)
    requires list != []
    ensures v == Assigned(hash, user, experiment, list)
    ensures Shared(list) ==> ChosenByShare(hash, user, experiment, list, v)
  {
    if Shared(list) {
      AssignedByShare(hash, user, experiment, list);
    }
    var bucket := hash(user, experiment) % WEIGHT_SUM;
    var i := PickByWeight(bucket, RowWeights(list));
    return list[i];
  }

  /** The variant is assigned when the hash has this value. */
  ghost predicate AssignedAt(h: Word32, user: IdText, experiment: Uuid, list: seq<Variant>, v: Variant)
    requires list != []
  {
    Assigned((_, _) => h, user, experiment, list) == v
  }

  lemma AssignedAtIff(h: Word32, user: IdText, experiment: Uuid, list: seq<Variant>, i: nat)
    requires Shared(list) && i < |list|
    ensures AssignedAt(h, user, experiment, list, list[i]) <==> InShare(list, i, h % 100)
  {
    hide Assigned, InShare, Shared;
    var hash: Hash := (_, _) => h;
    assert hash(user, experiment) == h;
    AssignedByShare(hash, user, experiment, list);
  }

  /** Of the hash values 0 to 99 each variant is assigned for exactly as many as its weight says. */
  lemma AssignedShare(user: IdText, experiment: Uuid, list: seq<Variant>, i: nat)
    requires Shared(list) && i < |list|
    ensures |set h: Word32 | h < 100 && AssignedAt(h, user, experiment, list, list[i])| == list[i].row.weight
  {
    var ws := RowWeights(list);
    var lo, hi := Sum(ws[..i]), Sum(ws[..i + 1]);
    var hashes := set h: Word32 | h < 100 && AssignedAt(h, user, experiment, list, list[i]);
    assert ws[..i + 1][..i] == ws[..i] && ws[..|ws|] == ws;
    PrefixMonotone(ws, 0, i);
    PrefixMonotone(ws, i + 1, |ws|);
    hide AssignedAt, Shared, Sum;
    forall h: Word32 | h < 100
      ensures h in hashes <==> lo <= h < hi
    {
      AssignedAtIff(h, user, experiment, list, i);
    }
    SameSize(hashes, lo, hi);
  }

  lemma SameSize(s: set<Word32>, lo: int, hi: int)
    requires 0 <= lo <= hi <= 100 && forall h: Word32 :: h in s <==> lo <= h < hi
    ensures |s| == hi - lo
    decreases hi - lo
  {
    if lo == hi {
      assert s == {};
    } else {
      var last: Word32 := hi - 1;
      SameSize(s - {last}, lo, hi - 1);
      assert last in s;
    }
  }
}
