/** The waterfalls of the tranched vault (SVS-12): how yield and losses are split over tranches
    in priority order, most senior first, and the subordination check. Each loop of the program
    is proved equal to a closed form, and the closed form is what the results are about. */
module Waterfall {
  import opened Common
  import opened Conversion

  function Total(a: seq<int>): int {
    if a == [] then 0 else a[0] + Total(a[1..])
  }

  function Clamp(x: int, high: int): int {
    if x < 0 then 0 else Min(x, high)
  }

  lemma {:induction false} TotalConcat(a: seq<int>, b: seq<int>)
    ensures Total(a + b) == Total(a) + Total(b)
  {
    if a == [] {
      assert a + b == b;
    } else {
      assert (a + b)[1..] == a[1..] + b;
      TotalConcat(a[1..], b);
    }
  }

  /** The total splits at any position. */
  lemma TotalSplit(a: seq<int>, i: nat)
    requires i < |a|
    ensures Total(a) == Total(a[..i]) + a[i] + Total(a[i + 1..])
    ensures Total(a[i..]) == a[i] + Total(a[i + 1..])
    ensures Total(a[..i + 1]) == Total(a[..i]) + a[i]
  {
    assert a == a[..i] + a[i..];
    assert a[i..][1..] == a[i + 1..];
    TotalConcat(a[..i], a[i..]);
    assert a[..i + 1] == a[..i] + [a[i]];
    TotalConcat(a[..i], [a[i]]);
  }

  lemma {:induction false} TotalNonNegative(a: seq<int>)
    requires forall i | 0 <= i < |a| :: 0 <= a[i]
    ensures 0 <= Total(a)
  {
    if a != [] { TotalNonNegative(a[1..]); }
  }

  lemma TotalUpdate(a: seq<int>, i: nat, v: int)
    requires i < |a|
    ensures Total(a[i := v]) == Total(a) - a[i] + v
  {
    var b := a[i := v];
    TotalSplit(a, i);
    TotalSplit(b, i);
    assert b[..i] == a[..i] && b[i + 1..] == a[i + 1..];
  }

  lemma {:induction false} TotalSum(a: seq<int>, b: seq<int>, c: seq<int>)
    requires |a| == |b| == |c| && forall i | 0 <= i < |a| :: c[i] == a[i] + b[i]
    ensures Total(c) == Total(a) + Total(b)
  {
    if a != [] { TotalSum(a[1..], b[1..], c[1..]); }
  }

  // ---------------------------------------------------------------- losses

  /** What tranche `i` loses: the part of the loss beyond all more junior allocations, up to its own. */
  function LossAt(a: seq<u64>, loss: int, i: nat): int
    requires i < |a|
  {
    Clamp(loss - Total(a[i + 1..]), a[i])
  }

  function Losses(a: seq<u64>, loss: int): (l: seq<u64>)
    ensures |l| == |a| && forall i | 0 <= i < |a| :: l[i] == LossAt(a, loss, i) && 0 <= l[i] <= a[i]
  {
    seq(|a|, i requires 0 <= i < |a| => LossAt(a, loss, i))
  }

  function AfterLosses(a: seq<u64>, loss: int): (b: seq<u64>)
    ensures |b| == |a| && forall i | 0 <= i < |a| :: b[i] == a[i] - LossAt(a, loss, i)
  {
    seq(|a|, i requires 0 <= i < |a| => a[i] - LossAt(a, loss, i))
  }

  /** What the tranches from `i` on lose of `loss`. */
  lemma {:induction false} LossesFrom(a: seq<u64>, loss: nat, i: nat)
    requires i <= |a|
    ensures Total(Losses(a, loss)[i..]) == Min(loss, Total(a[i..]))
    decreases |a| - i
  {
    TotalNonNegative(a[i..]);
    if i < |a| {
      LossesFrom(a, loss, i + 1);
      TotalNonNegative(a[i + 1..]);
      TotalSplit(a, i);
      TotalSplit(Losses(a, loss), i);
    }
  }

  /** Losses sum to the recorded loss, and the allocations shrink by exactly that. */
  lemma LossesConserve(a: seq<u64>, loss: nat)
    requires loss <= Total(a)
    ensures Total(Losses(a, loss)) == loss
    ensures Total(AfterLosses(a, loss)) == Total(a) - loss
  {
    LossesFrom(a, loss, 0);
    assert a[0..] == a && Losses(a, loss)[0..] == Losses(a, loss);
    TotalSum(AfterLosses(a, loss), Losses(a, loss), a);
  }

  /** A tranche loses anything only when every more junior one has lost everything. */
  lemma JuniorFirst(a: seq<u64>, loss: nat, i: nat, j: nat)
    requires i < j < |a| && Losses(a, loss)[i] > 0
    ensures AfterLosses(a, loss)[j] == 0
  {
    TotalSplit(a, j);
    JuniorTotal(a, i, j);
  }

  lemma {:induction false} JuniorTotal(a: seq<u64>, i: nat, j: nat)
    requires i < j < |a|
    ensures Total(a[i + 1..]) >= Total(a[j..]) == a[j] + Total(a[j + 1..])
    decreases j - i
  {
    TotalSplit(a, j);
    if i + 1 < j {
      TotalSplit(a, i + 1);
      JuniorTotal(a, i + 1, j);
    }
  }

  /** A split that is bounded by the allocations, sums to the loss and is junior-first. */
  predicate JuniorFirstSplit(a: seq<u64>, l: seq<u64>, loss: nat) {
    && |l| == |a|
    && (forall k | 0 <= k < |a| :: l[k] <= a[k])
    && (forall k, j | 0 <= k < j < |a| :: l[k] > 0 ==> l[j] == a[j])
    && Total(l) == loss
  }

  lemma LossForced(a: seq<u64>, l: seq<u64>, loss: nat, i: nat)
    requires JuniorFirstSplit(a, l, loss) && i < |a|
    requires Total(l[i + 1..]) == Min(loss, Total(a[i + 1..]))
    ensures l[i] == LossAt(a, loss, i)
  {
    TotalSplit(l, i);
    if l[i] < a[i] {
      assert forall k | 0 <= k < i :: l[k] == 0;
      TotalZero(l[..i]);
    } else if l[i] > 0 {
      assert l[i + 1..] == a[i + 1..];
      TotalNonNegative(l[..i]);
    }
  }

  lemma {:induction false} LossesForced(a: seq<u64>, l: seq<u64>, loss: nat, i: nat)
    requires JuniorFirstSplit(a, l, loss) && i <= |a|
    ensures forall k | i <= k < |a| :: l[k] == Losses(a, loss)[k]
    decreases |a| - i
  {
    if i < |a| {
      LossesForced(a, l, loss, i + 1);
      assert l[i + 1..] == Losses(a, loss)[i + 1..];
      LossesFrom(a, loss, i + 1);
      LossForced(a, l, loss, i);
    }
  }

  /** These conditions leave no choice: the closed form is the only junior-first split. */
  lemma LossesUnique(a: seq<u64>, l: seq<u64>, loss: nat)
    requires loss <= Total(a)
    ensures JuniorFirstSplit(a, l, loss) <==> l == Losses(a, loss)
  {
    if JuniorFirstSplit(a, l, loss) {
      LossesForced(a, l, loss, 0);
    } else if l == Losses(a, loss) {
      LossesConserve(a, loss);
      forall k, j | 0 <= k < j < |a| && l[k] > 0 ensures l[j] == a[j] {
        JuniorFirst(a, loss, k, j);
      }
    }
  }

  lemma {:induction false} TotalBelow(a: seq<int>, b: seq<int>)
    requires |a| == |b| && forall i | 0 <= i < |a| :: a[i] <= b[i]
    ensures Total(a) <= Total(b)
  {
    if a != [] { TotalBelow(a[1..], b[1..]); }
  }

  lemma {:induction false} TotalZero(a: seq<int>)
    requires forall i | 0 <= i < |a| :: 0 <= a[i]
    ensures Total(a) == 0 <==> forall i | 0 <= i < |a| :: a[i] == 0
  {
    if a != [] {
      TotalZero(a[1..]);
      TotalNonNegative(a[1..]);
      assert forall i | 1 <= i < |a| :: a[i] == a[1..][i - 1];
    }
  }

  lemma LossesComposeAt(a: seq<u64>, l1: nat, l2: nat, i: nat)
    requires i < |a|
    ensures AfterLosses(AfterLosses(a, l1), l2)[i] == AfterLosses(a, l1 + l2)[i]
  {
    var b := AfterLosses(a, l1);
    LossesFrom(a, l1, i + 1);
    TotalSum(b[i + 1..], Losses(a, l1)[i + 1..], a[i + 1..]);
    TotalNonNegative(a[i + 1..]);
    TotalNonNegative(b[i + 1..]);
    assert LossAt(a, l1, i) + LossAt(b, l2, i) == LossAt(a, l1 + l2, i);
  }

  /** Recording two losses in turn is recording their sum. */
  lemma LossesCompose(a: seq<u64>, l1: nat, l2: nat)
    ensures AfterLosses(AfterLosses(a, l1), l2) == AfterLosses(a, l1 + l2)
  {
    forall i | 0 <= i < |a| ensures AfterLosses(AfterLosses(a, l1), l2)[i] == AfterLosses(a, l1 + l2)[i] {
      LossesComposeAt(a, l1, l2, i);
    }
  }

  /** What is left of a loss for tranche `i` and the more senior ones. */
  function Remaining(a: seq<u64>, loss: int, i: nat): int
    requires i <= |a|
  {
    loss - Min(loss, Total(a[i..]))
  }

  lemma AbsorbStep(a: seq<u64>, loss: nat, i: nat)
    requires i < |a|
    ensures 0 <= Remaining(a, loss, i + 1)
    ensures LossAt(a, loss, i) == Min(Remaining(a, loss, i + 1), a[i])
    ensures Remaining(a, loss, i) == Remaining(a, loss, i + 1) - LossAt(a, loss, i)
  {
    TotalSplit(a, i);
    TotalNonNegative(a[i + 1..]);
  }

  /** The loop's bookkeeping: `left[i]` of the loss is left for the tranches before `i`. */
  ghost predicate Absorption(a: seq<u64>, loss: nat, left: seq<nat>, l: seq<u64>, b: seq<u64>) {
    && |left| == |a| + 1 && |l| == |b| == |a|
    && left[|a|] == loss
    && forall i | 0 <= i < |a| :: l[i] == Min(left[i + 1], a[i]) && b[i] == a[i] - l[i] && left[i] == left[i + 1] - l[i]
  }

  lemma AbsorptionIsLosses(a: seq<u64>, loss: nat) returns (left: seq<nat>, l: seq<u64>, b: seq<u64>)
    ensures Absorption(a, loss, left, l, b)
    ensures l == Losses(a, loss) && b == AfterLosses(a, loss)
    ensures left[0] == 0 <==> loss <= Total(a)
  {
    left, l, b := Lefts(a, loss), Losses(a, loss), AfterLosses(a, loss);
    forall i | 0 <= i < |a| ensures Remaining(a, loss, i) == Remaining(a, loss, i + 1) - LossAt(a, loss, i)
                              && LossAt(a, loss, i) == Min(Remaining(a, loss, i + 1), a[i]) {
      AbsorbStep(a, loss, i);
    }
    assert a[|a|..] == [] && a[0..] == a;
    TotalNonNegative(a);
  }

  lemma {:induction false} AbsorptionDone(a: seq<u64>, loss: nat, left: seq<nat>, l: seq<u64>, b: seq<u64>, i: nat)
    requires Absorption(a, loss, left, l, b) && i <= |a| && left[i] == 0
    ensures left[0] == 0 && forall k | 0 <= k < i :: l[k] == 0 && b[k] == a[k]
    decreases i
  {
    if i > 0 {
      assert l[i - 1] == 0;
      AbsorptionDone(a, loss, left, l, b, i - 1);
    }
  }

  function Lefts(a: seq<u64>, loss: nat): seq<nat> {
    seq(|a| + 1, i requires 0 <= i <= |a| => Left(a, loss, i))
  }

  function Left(a: seq<u64>, loss: nat, i: nat): nat
    requires i <= |a|
  {
    Remaining(a, loss, i)
  }

  /** The program's in-place loop, from the most junior tranche to the most senior. */
  method AbsorbLosses(totalLoss: u64, allocations: array<u64>) returns (r: Result<seq<u64>>)
    modifies allocations
    ensures r.Ok? <==> totalLoss <= Total(old(allocations[..]))
    ensures r.Ok? ==> r.value == Losses(old(allocations[..]), totalLoss)
    ensures r.Ok? ==> allocations[..] == AfterLosses(old(allocations[..]), totalLoss)
    ensures r.Err? ==> r.error == TotalLoss
  {
    ghost var a := allocations[..];
    ghost var left, l, b := AbsorptionIsLosses(a, totalLoss);
    var n := allocations.Length;
    var absorbed: seq<u64> := seq(n, _ => 0);
    var remaining := totalLoss;
    var i := n;
    while i > 0 && remaining != 0
      invariant 0 <= i <= n
      invariant 0 <= remaining <= totalLoss && remaining == left[i] && |absorbed| == n
      invariant forall k | 0 <= k < i :: allocations[k] == a[k] && absorbed[k] == 0
      invariant forall k | i <= k < n :: allocations[k] == b[k] && absorbed[k] == l[k]
    {
      i := i - 1;
      var loss := Min(remaining, allocations[i]);
      absorbed := absorbed[i := loss];
      allocations[i] := allocations[i] - loss;
      remaining := remaining - loss;
    }
    :- Require(remaining == 0, TotalLoss);
    AbsorptionDone(a, totalLoss, left, l, b, i);
    assert absorbed == l;
    assert allocations[..] == b;
    return Ok(absorbed);
  }

  // ---------------------------------------------------------------- sequential yield

  /** The yield a tranche is entitled to before anything flows to the next one. */
  function Entitled(a: seq<u64>, targets: seq<u16>, i: nat): nat
    requires |targets| == |a| && i < |a|
  {
    MulMono(0, a[i], targets[i]);
    Quotient(a[i] * targets[i], BPS_DENOMINATOR, Floor)
  }

  function Entitlements(a: seq<u64>, targets: seq<u16>): (e: seq<int>)
    requires |targets| == |a|
    ensures |e| == |a| && forall i | 0 <= i < |a| :: e[i] == Entitled(a, targets, i) && 0 <= e[i]
  {
    seq(|a|, i requires 0 <= i < |a| => Entitled(a, targets, i))
  }

  /** The first tranche without a target takes everything that reaches it. */
  predicate Absorbs(targets: seq<u16>, i: nat)
    requires i < |targets|
  {
    targets[i] == 0 || i == |targets| - 1
  }

  /** What is left of `total` once every more senior tranche has its entitlement. */
  function Reaching(total: int, a: seq<u64>, targets: seq<u16>, i: nat): int
    requires |targets| == |a| && i <= |a|
  {
    var left := total - Total(Entitlements(a, targets)[..i]);
    if left < 0 || exists k | 0 <= k < i :: targets[k] == 0 then 0 else left
  }

  function YieldAt(total: int, a: seq<u64>, targets: seq<u16>, i: nat): int
    requires |targets| == |a| && i < |a|
  {
    var left := Reaching(total, a, targets, i);
    if Absorbs(targets, i) then left else Min(left, Entitled(a, targets, i))
  }

  lemma ReachingBounds(total: nat, a: seq<u64>, targets: seq<u16>, i: nat)
    requires |targets| == |a| && i <= |a|
    ensures 0 <= Reaching(total, a, targets, i) <= total
    ensures i < |a| ==> 0 <= YieldAt(total, a, targets, i) <= total
  {
    TotalNonNegative(Entitlements(a, targets)[..i]);
  }

  function Share(total: u64, a: seq<u64>, targets: seq<u16>, i: nat): u64
    requires |targets| == |a| && i < |a|
  {
    ReachingBounds(total, a, targets, i);
    YieldAt(total, a, targets, i)
  }

  function Yields(total: u64, a: seq<u64>, targets: seq<u16>): (y: seq<u64>)
    requires |targets| == |a|
    ensures |y| == |a| && forall i | 0 <= i < |a| :: y[i] == YieldAt(total, a, targets, i)
  {
    seq(|a|, i requires 0 <= i < |a| => Share(total, a, targets, i))
  }

  /** An entitlement that is needed and leaves 64 bits; no target of up to 100% can cause it. */
  predicate EntitlementOverflows(total: u64, a: seq<u64>, targets: seq<u16>, i: nat)
    requires |targets| == |a| && i < |a|
  {
    Reaching(total, a, targets, i) > 0 && targets[i] != 0 && Entitled(a, targets, i) > U64_MAX
  }

  function SequentialYield(total: u64, a: seq<u64>, targets: seq<u16>): Result<seq<u64>>
    requires |targets| == |a|
  {
    if exists i | 0 <= i < |a| :: EntitlementOverflows(total, a, targets, i) then Err(MathOverflow)
    else if total > 0 && a == [] then Err(IndexOutOfBounds)
    else Ok(Yields(total, a, targets))
  }

  lemma ReachingStep(total: nat, a: seq<u64>, targets: seq<u16>, i: nat)
    requires |targets| == |a| && i < |a|
    ensures Reaching(total, a, targets, i + 1)
            == if targets[i] == 0 then 0 else Reaching(total, a, targets, i) - Min(Reaching(total, a, targets, i), Entitled(a, targets, i))
  {
    TotalSplit(Entitlements(a, targets), i);
    TotalNonNegative(Entitlements(a, targets)[..i]);
    assert (exists k | 0 <= k < i + 1 :: targets[k] == 0) <==> (targets[i] == 0 || exists k | 0 <= k < i :: targets[k] == 0);
  }

  lemma {:induction false} YieldsPrefix(total: u64, a: seq<u64>, targets: seq<u16>, i: nat)
    requires |targets| == |a| && i < |a|
    ensures Total(Yields(total, a, targets)[..i]) == total - Reaching(total, a, targets, i)
  {
    if i == 0 {
      assert Yields(total, a, targets)[..0] == [];
    } else {
      YieldsPrefix(total, a, targets, i - 1);
      TotalSplit(Yields(total, a, targets), i - 1);
      ReachingStep(total, a, targets, i - 1);
    }
  }

  /** All of the yield is distributed. */
  lemma YieldsConserve(total: u64, a: seq<u64>, targets: seq<u16>)
    requires |targets| == |a| > 0
    ensures Total(Yields(total, a, targets)) == total
  {
    var n := |a|;
    var y := Yields(total, a, targets);
    YieldsPrefix(total, a, targets, n - 1);
    TotalSplit(y, n - 1);
    assert y[n..] == [];
  }

  /** A tranche is paid anything only when every more senior one has its full entitlement. */
  lemma SeniorFirst(total: u64, a: seq<u64>, targets: seq<u16>, i: nat, j: nat)
    requires |targets| == |a| && i < j < |a| && Yields(total, a, targets)[j] > 0
    ensures targets[i] != 0 && Yields(total, a, targets)[i] == Entitled(a, targets, i)
    decreases j
  {
    ReachingBounds(total, a, targets, i);
    ReachingStep(total, a, targets, j - 1);
    if i < j - 1 {
      ReachingBounds(total, a, targets, j - 1);
      ReachedPositive(total, a, targets, i, j - 1);
    }
    ReachingStep(total, a, targets, i);
  }

  /** A tranche with a target is paid no more than it, save the last. */
  lemma EntitledAtMost(total: u64, a: seq<u64>, targets: seq<u16>, i: nat)
    requires |targets| == |a| && i < |a|
    ensures Rounded(a[i] * targets[i], BPS_DENOMINATOR, Floor, Entitled(a, targets, i))
    ensures targets[i] > 0 && i < |a| - 1 ==> Yields(total, a, targets)[i] <= Entitled(a, targets, i)
  {
    MulMono(0, a[i], targets[i]);
  }

  lemma {:induction false} ReachedPositive(total: u64, a: seq<u64>, targets: seq<u16>, i: nat, j: nat)
    requires |targets| == |a| && i < j < |a| && Reaching(total, a, targets, j) > 0
    ensures Reaching(total, a, targets, i + 1) > 0
    decreases j - i
  {
    if i + 1 < j {
      ReachingStep(total, a, targets, j - 1);
      ReachingBounds(total, a, targets, j - 1);
      ReachedPositive(total, a, targets, i, j - 1);
    }
  }

  lemma FractionBelow(x: nat, b: nat, d: nat)
    requires 0 < d && b <= d && 0 <= x * b
    ensures Quotient(x * b, d, Floor) <= x
  {
    MulMono(b, d, x);
    CancelLess(Quotient(x * b, d, Floor), x + 1, d);
  }

  lemma NoOverflowUpTo100Percent(total: u64, a: seq<u64>, targets: seq<u16>)
    requires |targets| == |a| > 0 && forall i | 0 <= i < |a| :: targets[i] <= BPS_DENOMINATOR
    ensures SequentialYield(total, a, targets).Ok?
  {
    forall i | 0 <= i < |a| ensures !EntitlementOverflows(total, a, targets, i) {
      MulMono(0, a[i], targets[i]);
      FractionBelow(a[i], targets[i], BPS_DENOMINATOR);
    }
  }

  /** The loop's bookkeeping: `left[i]` reaches tranche `i`, which is entitled to `e[i]`. */
  ghost predicate Cascade(total: u64, targets: seq<u16>, left: seq<nat>, e: seq<nat>, y: seq<u64>) {
    var n := |targets|;
    && |left| == n + 1 && |e| == |y| == n
    && left[0] == total
    && forall i | 0 <= i < n ::
         && left[i + 1] == (if targets[i] == 0 then 0 else left[i] - Min(left[i], e[i]))
         && y[i] == (if Absorbs(targets, i) then left[i] else Min(left[i], e[i]))
  }

  lemma {:induction false} CascadeDone(total: u64, targets: seq<u16>, left: seq<nat>, e: seq<nat>, y: seq<u64>, i: nat)
    requires Cascade(total, targets, left, e, y) && i <= |targets| && left[i] == 0
    ensures forall k | i <= k < |targets| :: left[k] == 0 && y[k] == 0
    decreases |targets| - i
  {
    if i < |targets| {
      assert y[i] == 0;
      CascadeDone(total, targets, left, e, y, i + 1);
    }
  }

  lemma CascadeIsYields(total: u64, a: seq<u64>, targets: seq<u16>)
    returns (left: seq<nat>, e: seq<nat>, y: seq<u64>)
    requires |targets| == |a|
    ensures Cascade(total, targets, left, e, y) && y == Yields(total, a, targets)
    ensures forall i | 0 <= i < |a| :: e[i] == Entitled(a, targets, i)
    ensures forall i | 0 <= i < |a| :: EntitlementOverflows(total, a, targets, i) <==> left[i] > 0 && targets[i] != 0 && e[i] > U64_MAX
  {
    left := seq(|a| + 1, i requires 0 <= i <= |a| => Reach(total, a, targets, i));
    e, y := Entitlements(a, targets), Yields(total, a, targets);
    assert left[0] == total;
    forall i | 0 <= i < |a|
      ensures left[i + 1] == if targets[i] == 0 then 0 else left[i] - Min(left[i], e[i])
    {
      ReachingStep(total, a, targets, i);
    }
  }

  function Reach(total: u64, a: seq<u64>, targets: seq<u16>, i: nat): nat
    requires |targets| == |a| && i <= |a|
  {
    ReachingBounds(total, a, targets, i);
    Reaching(total, a, targets, i)
  }

  method DistributeYieldSequential(totalYield: u64, allocations: seq<u64>, targets: seq<u16>) returns (r: Result<seq<u64>>)
    requires |targets| == |allocations|
    ensures r == SequentialYield(totalYield, allocations, targets)
  {
    ghost var left, e, y := CascadeIsYields(totalYield, allocations, targets);
    var n := |allocations|;
    var distribution: seq<u64> := seq(n, _ => 0);
    var remaining := totalYield;
    var i := 0;
    while i < n && remaining != 0
      invariant 0 <= i <= n == |distribution| && remaining == left[i]
      invariant forall k | 0 <= k < i :: !EntitlementOverflows(totalYield, allocations, targets, k)
      invariant forall k | 0 <= k < i :: distribution[k] == if targets[k] == 0 then y[k] else Min(left[k], e[k])
      invariant forall k | 0 <= k < i && k < n - 1 :: distribution[k] == y[k]
      invariant forall k | i <= k < n :: distribution[k] == 0
    {
      if targets[i] == 0 {
        distribution := distribution[i := remaining];
        remaining := 0;
      } else {
        MulMono(0, allocations[i], targets[i]);
        var entitled := Quotient(allocations[i] * targets[i], BPS_DENOMINATOR, Floor);
        assert entitled == e[i];
        assert entitled > U64_MAX ==> EntitlementOverflows(totalYield, allocations, targets, i);
        :- Require(entitled <= U64_MAX, MathOverflow);
        var actual := Min(remaining, entitled);
        distribution := distribution[i := actual];
        remaining := remaining - actual;
      }
      i := i + 1;
    }
    if remaining == 0 {
      CascadeDone(totalYield, targets, left, e, y, i);
    } else {
      :- Require(n > 0, IndexOutOfBounds);
      distribution := distribution[n - 1 := distribution[n - 1] + remaining];
    }
    assert distribution == y;
    return Ok(distribution);
  }

  // ---------------------------------------------------------------- pro-rata yield

  lemma MemberBelow(a: seq<u64>, i: nat)
    requires i < |a|
    ensures a[i] <= Total(a)
  {
    TotalSplit(a, i);
    TotalNonNegative(a[..i]);
    TotalNonNegative(a[i + 1..]);
  }

  /** A tranche's part of the yield in proportion to its allocation, rounded down. */
  function Portion(total: u64, a: seq<u64>, i: nat): (p: nat)
    requires i < |a| && Total(a) > 0
    ensures p <= U64_MAX
  {
    MemberBelow(a, i);
    ProductNonNegative(total, a[i]);
    FractionBelow(total, a[i], Total(a));
    Quotient(total * a[i], Total(a), Floor)
  }

  function Portions(total: u64, a: seq<u64>): (p: seq<u64>)
    requires Total(a) > 0
    ensures |p| == |a| && forall i | 0 <= i < |a| :: p[i] == Portion(total, a, i)
  {
    seq(|a|, i requires 0 <= i < |a| => Portion(total, a, i))
  }

  lemma PortionRounded(total: u64, a: seq<u64>, i: nat)
    requires i < |a| && Total(a) > 0
    ensures Portion(total, a, i) * Total(a) <= total * a[i] < (Portion(total, a, i) + 1) * Total(a)
  {
    MulMono(0, total, a[i]);
  }

  lemma {:induction false} PortionsPrefix(total: u64, a: seq<u64>, i: nat)
    requires i <= |a| && Total(a) > 0
    ensures var sum := Total(Portions(total, a)[..i]);
            && sum * Total(a) <= total * Total(a[..i]) <= sum * Total(a) + i * Total(a)
            && (i > 0 ==> total * Total(a[..i]) < sum * Total(a) + i * Total(a))
  {
    if i > 0 {
      PortionsPrefix(total, a, i - 1);
      TotalSplit(a, i - 1);
      TotalSplit(Portions(total, a), i - 1);
      PortionRounded(total, a, i - 1);
      AddRounded(total, a[i - 1], Total(a[..i - 1]), Total(a), Portion(total, a, i - 1), Total(Portions(total, a)[..i - 1]), i - 1);
    }
  }

  lemma AddRounded(total: int, x: int, before: int, d: int, p: int, sum: int, k: int)
    requires p * d <= total * x < (p + 1) * d
    requires sum * d <= total * before <= sum * d + k * d
    ensures (sum + p) * d <= total * (before + x) < (sum + p) * d + (k + 1) * d
  {
    assert (sum + p) * d == sum * d + p * d;
    assert (k + 1) * d == k * d + d && (p + 1) * d == p * d + d;
    assert total * (before + x) == total * before + total * x;
  }

  /** Rounding down keeps less than one unit a tranche: the dust the last tranche is given. */
  lemma {:induction false} DustBelowCount(total: u64, a: seq<u64>)
    requires Total(a) > 0
    ensures 0 <= total - Total(Portions(total, a)) < |a|
  {
    PortionsPrefix(total, a, |a|);
    assert a[..|a|] == a && Portions(total, a)[..|a|] == Portions(total, a);
    var sum, d := Total(Portions(total, a)), Total(a);
    CancelLeq(sum, total, d);
    assert a != [];
    assert (sum + |a|) * d == sum * d + |a| * d;
    CancelLess(total, sum + |a|, d);
  }

  function LastPortion(total: u64, a: seq<u64>): u64
    requires Total(a) > 0
  {
    DustBelowCount(total, a);
    var p := Portions(total, a);
    TotalSplit(p, |a| - 1);
    TotalNonNegative(p[..|a| - 1]);
    assert p[|a|..] == [];
    p[|a| - 1] + total - Total(p)
  }

  function ProRataYield(total: u64, a: seq<u64>): Result<seq<u64>> {
    if Total(a) > U64_MAX then Err(MathOverflow)
    else if Total(a) <= 0 then Ok(seq(|a|, _ => 0))
    else Ok(Portions(total, a)[|a| - 1 := LastPortion(total, a)])
  }

  lemma FairBounds(exact: int, p: int, y: int, d: int, n: int)
    requires 0 < d && p * d <= exact < (p + 1) * d && p <= y < p + n
    ensures exact < (y + 1) * d && y * d < exact + n * d
  {
    MulMono(p + 1, y + 1, d);
    MulLess(y, p + n, d);
    assert (p + n) * d == p * d + n * d;
  }

  /** All of the yield is distributed, every tranche has less than one unit less than its exact
      proportion, and none but the last has more. */
  lemma ProRataFair(total: u64, a: seq<u64>, i: nat)
    requires 0 < Total(a) <= U64_MAX && i < |a|
    ensures ProRataYield(total, a).Ok? && |ProRataYield(total, a).value| == |a|
    ensures var y := ProRataYield(total, a).value;
            && Total(y) == total
            && total * a[i] < (y[i] + 1) * Total(a)
            && (i < |a| - 1 ==> y[i] * Total(a) <= total * a[i])
            && y[i] * Total(a) < total * a[i] + |a| * Total(a)
  {
    var p := Portions(total, a);
    var y := ProRataYield(total, a).value;
    TotalUpdate(p, |a| - 1, LastPortion(total, a));
    DustBelowCount(total, a);
    PortionRounded(total, a, i);
    FairBounds(total * a[i], p[i], y[i], Total(a), |a|);
  }

  /** The loop's bookkeeping: `sums[i]` is distributed to the tranches before `i`. */
  ghost predicate Shares(total: u64, a: seq<u64>, principal: u64, p: seq<u64>, sums: seq<nat>) {
    && |p| == |a| && |sums| == |a| + 1 && sums[0] == 0 && sums[|a|] <= total
    && forall i | 0 <= i < |a| :: MulDiv(total, a[i], principal, Floor) == Ok(p[i]) && sums[i + 1] == sums[i] + p[i]
  }

  lemma {:induction false} SharesBelow(total: u64, a: seq<u64>, principal: u64, p: seq<u64>, sums: seq<nat>, i: nat)
    requires Shares(total, a, principal, p, sums) && i <= |a|
    ensures sums[i] <= total
    decreases |a| - i
  {
    if i < |a| {
      SharesBelow(total, a, principal, p, sums, i + 1);
      assert sums[i + 1] == sums[i] + p[i];
    }
  }

  lemma PrefixSums(p: seq<u64>) returns (sums: seq<nat>)
    ensures |sums| == |p| + 1 && sums[0] == 0 && sums[|p|] == Total(p)
    ensures forall i | 0 <= i < |p| :: sums[i + 1] == sums[i] + p[i]
  {
    sums := seq(|p| + 1, i requires 0 <= i <= |p| => PrefixSum(p, i));
    assert p[..0] == [] && p[..|p|] == p;
    forall i | 0 <= i < |p| ensures sums[i + 1] == sums[i] + p[i] {
      TotalSplit(p, i);
    }
  }

  lemma SharesArePortions(total: u64, a: seq<u64>) returns (p: seq<u64>, sums: seq<nat>)
    requires 0 < Total(a) <= U64_MAX
    ensures Shares(total, a, Total(a), p, sums) && |a| > 0
    ensures p[|a| - 1] + total - sums[|a|] <= U64_MAX
    ensures ProRataYield(total, a) == Ok(p[|a| - 1 := p[|a| - 1] + total - sums[|a|]])
  {
    p := Portions(total, a);
    sums := PrefixSums(p);
    DustBelowCount(total, a);
    forall i | 0 <= i < |a| ensures MulDiv(total, a[i], Total(a), Floor) == Ok(p[i]) {
      PortionComputed(total, a, i);
    }
    assert LastPortion(total, a) == p[|a| - 1] + total - sums[|a|];
  }

  function PrefixSum(p: seq<u64>, i: nat): nat
    requires i <= |p|
  {
    TotalNonNegative(p[..i]);
    Total(p[..i])
  }

  lemma PortionComputed(total: u64, a: seq<u64>, i: nat)
    requires i < |a| && 0 < Total(a) <= U64_MAX
    ensures MulDiv(total, a[i], Total(a), Floor) == Ok(Portion(total, a, i))
  {}

  method SumAllocations(allocations: seq<u64>) returns (r: Result<u64>)
    ensures r == if Total(allocations) <= U64_MAX then Ok(Total(allocations)) else Err(MathOverflow)
  {
    var sum: u64 := 0;
    var i := 0;
    assert allocations[..0] == [];
    while i < |allocations|
      invariant 0 <= i <= |allocations| && sum == Total(allocations[..i])
    {
      TotalSplit(allocations, i);
      TotalNonNegative(allocations[i + 1..]);
      sum :- CheckedAdd(sum, allocations[i]);
      i := i + 1;
    }
    assert allocations[..i] == allocations;
    return Ok(sum);
  }

  /** None of the checked operations of the program's loop can fail. */
  method DistributeYieldProRata(totalYield: u64, allocations: seq<u64>) returns (r: Result<seq<u64>>)
    ensures r == ProRataYield(totalYield, allocations)
  {
    var n := |allocations|;
    var distribution: seq<u64> := seq(n, _ => 0);
    var principal :- SumAllocations(allocations);
    if principal == 0 {
      return Ok(distribution);
    }
    ghost var p, sums := SharesArePortions(totalYield, allocations);
    var distributed := 0;
    var i := 0;
    while i < n
      invariant 0 <= i <= n == |distribution|
      invariant distributed == sums[i]
      invariant forall k | 0 <= k < i :: distribution[k] == p[k]
    {
      var share := MulDiv(totalYield, allocations[i], principal, Floor).value;
      distribution := distribution[i := share];
      SharesBelow(totalYield, allocations, principal, p, sums, i + 1);
      distributed := distributed + share;
      i := i + 1;
    }
    assert distribution == p;
    var dust := totalYield - distributed;
    if dust > 0 {
      distribution := distribution[n - 1 := distribution[n - 1] + dust];
    }
    assert distribution == p[n - 1 := p[n - 1] + totalYield - sums[n]];
    return Ok(distribution);
  }

  // ---------------------------------------------------------------- subordination

  /** What the tranches more junior than `i` must hold between them. */
  function Required(total: u64, bps: u16): nat {
    MulMono(0, total, bps);
    Quotient(total * bps, BPS_DENOMINATOR, Ceiling)
  }

  /** Every tranche is protected by at least its share of the total in more junior tranches. */
  predicate Subordinated(a: seq<u64>, bps: seq<u16>, total: int)
    requires |bps| == |a|
  {
    forall i | 0 <= i < |a| :: Protects(a, bps, total, i)
  }

  predicate Protects(a: seq<u64>, bps: seq<u16>, total: int, i: nat)
    requires |bps| == |a| && i < |a|
  {
    total * bps[i] <= BPS_DENOMINATOR * Total(a[i + 1..])
  }

  function CheckOne(a: seq<u64>, bps: seq<u16>, total: u64, i: nat): Result<()>
    requires |bps| == |a| && i < |a|
  {
    if bps[i] == 0 then Ok(())
    else if Total(a[i + 1..]) > U64_MAX || Required(total, bps[i]) > U64_MAX then Err(MathOverflow)
    else if Total(a[i + 1..]) < Required(total, bps[i]) then Err(SubordinationBreach)
    else Ok(())
  }

  /** The first tranche whose check fails decides the error. */
  function CheckSubordinationFrom(a: seq<u64>, bps: seq<u16>, total: u64, i: nat): Result<()>
    requires |bps| == |a| && i <= |a|
    decreases |a| - i
  {
    if i == |a| then Ok(())
    else
      var _ :- CheckOne(a, bps, total, i);
      CheckSubordinationFrom(a, bps, total, i + 1)
  }

  /** The checked sums the program forms for the tranches with a requirement stay within 64 bits. */
  predicate Summable(a: seq<u64>, bps: seq<u16>)
    requires |bps| == |a|
  {
    forall i | 0 <= i < |a| :: SumChecked(a, bps, i)
  }

  predicate SumChecked(a: seq<u64>, bps: seq<u16>, i: nat)
    requires |bps| == |a| && i < |a|
  {
    bps[i] == 0 || Total(a[i + 1..]) <= U64_MAX
  }

  /** So they do whenever the sum of all tranches does. */
  lemma SummableBelow(a: seq<u64>, bps: seq<u16>)
    requires |bps| == |a| && Total(a) <= U64_MAX
    ensures Summable(a, bps)
  {
    forall i | 0 <= i < |a| ensures SumChecked(a, bps, i) {
      TotalSplit(a, i);
      TotalNonNegative(a[..i]);
    }
  }

  lemma CheckOneIff(a: seq<u64>, bps: seq<u16>, total: u64, i: nat)
    requires |bps| == |a| && i < |a|
    ensures CheckOne(a, bps, total, i).Ok? <==> SumChecked(a, bps, i) && Protects(a, bps, total, i)
    ensures SumChecked(a, bps, i) && bps[i] <= BPS_DENOMINATOR && CheckOne(a, bps, total, i).Err? ==>
              CheckOne(a, bps, total, i).error == SubordinationBreach
  {
    MulMono(0, total, bps[i]);
    TotalNonNegative(a[i + 1..]);
    if bps[i] <= BPS_DENOMINATOR {
      MulMono(bps[i], BPS_DENOMINATOR, total);
    }
  }

  /** The check accepts exactly the subordinated allocations, of those whose sums it can form. */
  lemma {:induction false} CheckSubordinationIff(a: seq<u64>, bps: seq<u16>, total: u64, i: nat)
    requires |bps| == |a| && i <= |a|
    ensures CheckSubordinationFrom(a, bps, total, i).Ok? <==>
              forall k | i <= k < |a| :: SumChecked(a, bps, k) && Protects(a, bps, total, k)
    ensures Summable(a, bps) && CheckSubordinationFrom(a, bps, total, i).Err? && (forall k | 0 <= k < |a| :: bps[k] <= BPS_DENOMINATOR) ==>
              CheckSubordinationFrom(a, bps, total, i).error == SubordinationBreach
    decreases |a| - i
  {
    if i < |a| {
      CheckOneIff(a, bps, total, i);
      CheckSubordinationIff(a, bps, total, i + 1);
    }
  }

  method CheckSubordination(allocations: seq<u64>, subordinationBps: seq<u16>, totalAssets: u64) returns (r: Result<()>)
    requires |subordinationBps| == |allocations|
    ensures r == CheckSubordinationFrom(allocations, subordinationBps, totalAssets, 0)
  {
    var n := |allocations|;
    var i := 0;
    while i < n
      invariant 0 <= i <= n
      invariant CheckSubordinationFrom(allocations, subordinationBps, totalAssets, 0)
                == CheckSubordinationFrom(allocations, subordinationBps, totalAssets, i)
    {
      if subordinationBps[i] != 0 {
        var junior :- SumAllocations(allocations[i + 1..]);
        MulMono(0, totalAssets, subordinationBps[i]);
        var required := (totalAssets * subordinationBps[i] + 9_999) / BPS_DENOMINATOR;
        :- Require(required <= U64_MAX, MathOverflow);
        :- Require(junior >= required, SubordinationBreach);
      }
      i := i + 1;
    }
    return Ok(());
  }

  lemma ProductsMove(junior: int, bps: int, rest: int, senior: int, d: int)
    requires junior == rest - senior
    ensures rest * bps <= d * junior <==> d * senior <= (d - bps) * rest
  {
    assert d * (rest - senior) == d * rest - d * senior;
    assert (d - bps) * rest == d * rest - rest * bps;
  }

  /** What tranche `k` and its seniors hold, less what all tranches hold in `excess` of the total,
      fits beside its share of the `rest` of that total. */
  predicate Fits(a: seq<u64>, bps: seq<u16>, excess: int, rest: int, k: nat)
    requires |bps| == |a| && k < |a|
  {
    BPS_DENOMINATOR * (Total(a[..k + 1]) - excess) <= (BPS_DENOMINATOR - bps[k]) * rest
  }

  predicate SeniorsFit(a: seq<u64>, bps: seq<u16>, excess: int, rest: int, i: nat)
    requires |bps| == |a| && i < |a|
  {
    forall k | 0 <= k < i :: Fits(a, bps, excess, rest, k)
  }

  predicate JuniorsProtect(a: seq<u64>, bps: seq<u16>, rest: int, i: nat)
    requires |bps| == |a| && i < |a|
  {
    forall k | i <= k < |a| :: Protects(a, bps, rest, k)
  }

  lemma ProtectsIffFits(a: seq<u64>, bps: seq<u16>, total: int, i: nat, paid: u64, k: nat)
    requires |bps| == |a| && k < i < |a| && paid <= a[i]
    ensures Protects(a[i := a[i] - paid], bps, total - paid, k) <==> Fits(a, bps, Total(a) - total, total - paid, k)
  {
    var b := a[i := a[i] - paid];
    TotalUpdate(a, i, a[i] - paid);
    TotalSplit(b, k);
    assert b[..k + 1] == a[..k + 1];
    ProductsMove(Total(b[k + 1..]), bps[k], total - paid, Total(a[..k + 1]) - (Total(a) - total), BPS_DENOMINATOR);
  }

  /** A tranche without a requirement asks nothing of its juniors. */
  lemma Undemanding(a: seq<u64>, bps: seq<u16>, excess: int, rest: int, k: nat)
    requires |bps| == |a| && k < |a| && bps[k] == 0
    ensures Protects(a, bps, rest, k)
    ensures Fits(a, bps, excess, rest, k) <==> Total(a[..k + 1]) - excess <= rest
  {
    TotalNonNegative(a[k + 1..]);
  }

  /** When paying `paid` out of tranche `i` leaves every tranche protected of the rest of `total`: what
      each more senior tranche and its own seniors hold must fit beside its share of it, and `i` and its
      juniors must protect it. */
  lemma ExitAllowedIff(a: seq<u64>, bps: seq<u16>, total: int, i: nat, paid: u64)
    requires |bps| == |a| && i < |a| && paid <= a[i]
    ensures var rest := total - paid;
            Subordinated(a[i := a[i] - paid], bps, rest) <==>
              SeniorsFit(a, bps, Total(a) - total, rest, i) && JuniorsProtect(a, bps, rest, i)
  {
    var b, excess, rest := a[i := a[i] - paid], Total(a) - total, total - paid;
    forall k | 0 <= k < i ensures Protects(b, bps, rest, k) <==> Fits(a, bps, excess, rest, k) {
      ProtectsIffFits(a, bps, total, i, paid, k);
    }
    forall k | i <= k < |a| ensures Protects(b, bps, rest, k) <==> Protects(a, bps, rest, k) {
      assert b[k + 1..] == a[k + 1..];
    }
  }

  lemma ProtectsLess(a: seq<u64>, bps: seq<u16>, total: int, less: int, k: nat)
    requires |bps| == |a| && k < |a| && less <= total && Protects(a, bps, total, k)
    ensures Protects(a, bps, less, k)
  {
    MulMono(less, total, bps[k]);
  }

  /** From protected allocations only what more senior tranches still hold can stand in the way. */
  lemma ProtectedExitIff(a: seq<u64>, bps: seq<u16>, total: int, i: nat, paid: u64)
    requires |bps| == |a| && i < |a| && paid <= a[i] && Subordinated(a, bps, total)
    ensures Subordinated(a[i := a[i] - paid], bps, total - paid) <==> SeniorsFit(a, bps, Total(a) - total, total - paid, i)
  {
    var rest := total - paid;
    ExitAllowedIff(a, bps, total, i, paid);
    forall k | i <= k < |a| ensures Protects(a, bps, rest, k) {
      ProtectsLess(a, bps, total, rest, k);
    }
  }

  /** Larger allocations of the same total protect no less. */
  lemma MoreProtects(a: seq<u64>, b: seq<u64>, bps: seq<u16>, total: int)
    requires |a| == |b| == |bps| && (forall k | 0 <= k < |a| :: a[k] <= b[k]) && Subordinated(a, bps, total)
    ensures Subordinated(b, bps, total)
  {
    forall k | 0 <= k < |b| ensures Protects(b, bps, total, k) {
      assert Protects(a, bps, total, k);
      TotalBelow(a[k + 1..], b[k + 1..]);
    }
  }

  /** Tranches that hold nothing never stand in the way. */
  lemma EmptyFits(a: seq<u64>, bps: seq<u16>, excess: nat, rest: nat, i: nat)
    requires |bps| == |a| && i < |a| && forall k | 0 <= k < i :: a[k] == 0 && bps[k] <= BPS_DENOMINATOR
    ensures SeniorsFit(a, bps, excess, rest, i)
  {
    forall k | 0 <= k < i ensures Fits(a, bps, excess, rest, k) {
      TotalZero(a[..k + 1]);
      MulMono(0, BPS_DENOMINATOR - bps[k], rest);
    }
  }
}
