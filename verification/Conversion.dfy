/** Share/asset conversion with a virtual offset (modules/svs-math).

    A pool of `A` assets and `S` shares is priced as if it held `A + 1` assets and
    `S + 10^offset` shares. All results below are stated on products, never on quotients,
    so that they compose over whole runs of operations.
 */
module Conversion {
  import opened Common

  datatype Rounding = Floor | Ceiling

  /** `q` is `n / d` rounded in the given direction. */
  predicate Rounded(n: int, d: int, rounding: Rounding, q: int) {
    match rounding
    case Floor => q * d <= n < (q + 1) * d
    case Ceiling => (q - 1) * d < n <= q * d
  }

  lemma MulMono(a: int, b: int, c: int)
    requires a <= b && 0 <= c
    ensures a * c <= b * c
  {}

  lemma MulLess(a: int, b: int, c: int)
    requires a < b && 0 < c
    ensures a * c < b * c
  {}

  lemma ProductNonNegative(x: nat, y: nat)
    ensures 0 <= x * y
  {}

  lemma CancelLess(a: int, b: int, c: int)
    requires 0 < c && a * c < b * c
    ensures a < b
  {
    if b <= a { MulMono(b, a, c); }
  }

  lemma CancelLeq(a: int, b: int, c: int)
    requires 0 < c && a * c <= b * c
    ensures a <= b
  {
    if b < a { MulMono(b + 1, a, c); }
  }

  /** A rounded quotient is unique. */
  lemma RoundedUnique(n: nat, d: nat, rounding: Rounding, p: int, q: int)
    requires d > 0 && Rounded(n, d, rounding, p) && Rounded(n, d, rounding, q)
    ensures p == q
  {
    match rounding
    case Floor =>
      CancelLess(p, q + 1, d);
      CancelLess(q, p + 1, d);
    case Ceiling =>
      CancelLess(p - 1, q, d);
      CancelLess(q - 1, p, d);
  }

  /** The source's quotient: truncating division, after adding `d - 1` for a ceiling. */
  function Quotient(n: nat, d: nat, rounding: Rounding): (q: nat)
    requires d > 0
    ensures Rounded(n, d, rounding, q)
  {
    match rounding
    case Floor =>
      var q := n / d;
      assert n == q * d + n % d;
      q
    case Ceiling =>
      var q := (n + d - 1) / d;
      assert n + d - 1 == q * d + (n + d - 1) % d;
      q
  }

  /** The 128-bit intermediates of the source's product and ceiling never overflow. */
  lemma IntermediatesFit(value: u64, numerator: u64, denominator: u64)
    ensures 0 <= value * numerator <= value * numerator + denominator <= U128_MAX
  {
    MulMono(value, U64_MAX, numerator);
    MulMono(numerator, U64_MAX, U64_MAX);
  }

  /** value * numerator / denominator, refused when the result leaves 64 bits. The source's
      128-bit overflow checks are left out: `IntermediatesFit` shows they cannot fail. */
  function MulDiv(value: u64, numerator: u64, denominator: u64, rounding: Rounding): (r: Result<u64>)
    ensures r.Ok? ==> denominator > 0 && Rounded(value * numerator, denominator, rounding, r.value)
    ensures r == Err(DivisionByZero) <==> denominator == 0
    ensures r.Err? && denominator > 0 ==>
              r == Err(MathOverflow) && U64_MAX * denominator < value * numerator
  {
    var product := value * numerator;
    :- Require(denominator != 0, DivisionByZero);
    var q := Quotient(product, denominator, rounding);
    assert q > U64_MAX ==> U64_MAX * denominator < product by {
      if q > U64_MAX {
        MulMono(U64_MAX + 1, q, denominator);
        MulMono(U64_MAX, q - 1, denominator);
      }
    }
    :- Require(q <= U64_MAX, MathOverflow);
    Ok(q)
  }

  lemma FloorAtLeast(n: int, d: int, q: int, m: int)
    requires d > 0 && Rounded(n, d, Floor, q)
    ensures q >= m <==> m * d <= n
  {
    if q >= m { MulMono(m, q, d); } else { MulMono(q + 1, m, d); }
  }

  lemma CeilingAtMost(n: int, d: int, q: int, m: int)
    requires d > 0 && Rounded(n, d, Ceiling, q)
    ensures q <= m <==> n <= m * d
  {
    if q <= m { MulMono(q, m, d); } else { MulMono(m, q - 1, d); }
  }

  /** Exactly when the program's quotient is between two 64-bit bounds, on products. */
  lemma MulDivWithin(value: u64, numerator: u64, denominator: u64, rounding: Rounding, low: int, high: int)
    requires denominator > 0 && high <= U64_MAX
    ensures var r := MulDiv(value, numerator, denominator, rounding);
            r.Ok? && low <= r.value <= high <==>
              match rounding
              case Floor => low * denominator <= value * numerator < (high + 1) * denominator
              case Ceiling => (low - 1) * denominator < value * numerator <= high * denominator
  {
    IntermediatesFit(value, numerator, denominator);
    var n := value * numerator;
    var q := Quotient(n, denominator, rounding);
    if rounding.Floor? {
      FloorAtLeast(n, denominator, q, low);
      FloorAtLeast(n, denominator, q, high + 1);
    } else {
      CeilingAtMost(n, denominator, q, low - 1);
      CeilingAtMost(n, denominator, q, high);
    }
  }

  function Pow10(e: nat): (p: nat)
    ensures p >= 1
  {
    if e == 0 then 1 else 10 * Pow10(e - 1)
  }

  /** 10^offset, refused when it leaves 64 bits. */
  function VirtualShares(offset: u8): Result<u64> {
    if Pow10(offset) <= U64_MAX then Ok(Pow10(offset)) else Err(MathOverflow)
  }

  function ConvertToShares(assets: u64, totalAssets: u64, totalShares: u64, offset: u8, rounding: Rounding): Result<u64> {
    var vs :- VirtualShares(offset);
    var virtualShares :- CheckedAdd(totalShares, vs);
    var virtualAssets :- CheckedAdd(totalAssets, 1);
    MulDiv(assets, virtualShares, virtualAssets, rounding)
  }

  function ConvertToAssets(shares: u64, totalAssets: u64, totalShares: u64, offset: u8, rounding: Rounding): Result<u64> {
    var vs :- VirtualShares(offset);
    var virtualShares :- CheckedAdd(totalShares, vs);
    var virtualAssets :- CheckedAdd(totalAssets, 1);
    MulDiv(shares, virtualAssets, virtualShares, rounding)
  }

  /** Exchanging `assets` for `shares`, in either direction, at no better than the pool's
      price for the customer. `assets` and `shares` are negative when they leave the pool. */
  predicate FavoursPool(totalAssets: int, totalShares: int, vs: int, assets: int, shares: int) {
    shares * (totalAssets + 1) <= assets * (totalShares + vs)
  }

  /** Pool (a1, s1) is priced at least as high as pool (a0, s0). */
  predicate PriceAtLeast(a0: int, s0: int, a1: int, s1: int, vs: int) {
    (a0 + 1) * (s1 + vs) <= (a1 + 1) * (s0 + vs)
  }

  /** An exchange favours the pool exactly when it does not lower the price. */
  lemma FavoursPoolIffPriceKept(a: int, s: int, vs: int, da: int, ds: int)
    ensures FavoursPool(a, s, vs, da, ds) <==> PriceAtLeast(a, s, a + da, s + ds, vs)
  {
    assert (a + 1) * (s + ds + vs) == (a + 1) * (s + vs) + ds * (a + 1);
    assert (a + da + 1) * (s + vs) == (a + 1) * (s + vs) + da * (s + vs);
  }

  lemma RatioTransitive(p0: nat, t0: nat, p1: nat, t1: nat, p2: nat, t2: nat)
    requires t1 > 0 && p0 * t1 <= p1 * t0 && p1 * t2 <= p2 * t1
    ensures p0 * t2 <= p2 * t0
  {
    assert (p0 * t2) * t1 <= (p2 * t0) * t1 by {
      calc {
        (p0 * t2) * t1;
      == { Swap(p0, t2, t1); }
        (p0 * t1) * t2;
      <= { MulMono(p0 * t1, p1 * t0, t2); }
        (p1 * t0) * t2;
      == { Swap(p1, t0, t2); }
        (p1 * t2) * t0;
      <= { MulMono(p1 * t2, p2 * t1, t0); }
        (p2 * t1) * t0;
      == { Swap(p2, t1, t0); }
        (p2 * t0) * t1;
      }
    }
    CancelLeq(p0 * t2, p2 * t0, t1);
  }

  lemma Swap(a: int, b: int, c: int)
    ensures (a * b) * c == (a * c) * b
  {}

  lemma PriceTransitive(a0: nat, s0: nat, a1: nat, s1: nat, a2: nat, s2: nat, vs: nat)
    requires vs > 0
    requires PriceAtLeast(a0, s0, a1, s1, vs) && PriceAtLeast(a1, s1, a2, s2, vs)
    ensures PriceAtLeast(a0, s0, a2, s2, vs)
  {
    RatioTransitive(a0 + 1, s0 + vs, a1 + 1, s1 + vs, a2 + 1, s2 + vs);
  }

  /** More assets on no more shares raise the price. */
  lemma PriceMonotone(a0: nat, s0: nat, a1: nat, s1: nat, vs: nat)
    requires a0 <= a1 && s1 <= s0
    ensures PriceAtLeast(a0, s0, a1, s1, vs)
  {
    MulMono(a0 + 1, a1 + 1, s1 + vs);
    MulMono(s1 + vs, s0 + vs, a1 + 1);
  }

  /** A pool that is priced no lower and has no fewer shares has no fewer assets. */
  lemma PriceBacked(a0: nat, s0: nat, a1: nat, s1: nat, vs: nat)
    requires vs > 0 && s0 <= s1 && PriceAtLeast(a0, s0, a1, s1, vs)
    ensures a0 <= a1
  {
    MulMono(s0 + vs, s1 + vs, a0 + 1);
    CancelLeq(a0 + 1, a1 + 1, s0 + vs);
  }

  lemma ToSharesRounded(assets: u64, a: u64, s: u64, offset: u8, rounding: Rounding)
    requires ConvertToShares(assets, a, s, offset, rounding).Ok?
    ensures Rounded(assets * (s + Pow10(offset)), a + 1, rounding, ConvertToShares(assets, a, s, offset, rounding).value)
  {}

  lemma ToAssetsRounded(shares: u64, a: u64, s: u64, offset: u8, rounding: Rounding)
    requires ConvertToAssets(shares, a, s, offset, rounding).Ok?
    ensures Rounded(shares * (a + 1), s + Pow10(offset), rounding, ConvertToAssets(shares, a, s, offset, rounding).value)
  {}

  /** Exactly when assets convert to shares, or shares to assets, between two bounds. */
  lemma ToSharesWithin(assets: u64, a: u64, s: u64, offset: u8, rounding: Rounding, low: int, high: int)
    requires a < U64_MAX && s + Pow10(offset) <= U64_MAX && high <= U64_MAX
    ensures var r, p, t := ConvertToShares(assets, a, s, offset, rounding), a + 1, s + Pow10(offset);
            r.Ok? && low <= r.value <= high <==>
              match rounding
              case Floor => low * p <= assets * t < (high + 1) * p
              case Ceiling => (low - 1) * p < assets * t <= high * p
  {
    MulDivWithin(assets, s + Pow10(offset), a + 1, rounding, low, high);
  }

  lemma ToAssetsWithin(shares: u64, a: u64, s: u64, offset: u8, rounding: Rounding, low: int, high: int)
    requires a < U64_MAX && s + Pow10(offset) <= U64_MAX && high <= U64_MAX
    ensures var r, p, t := ConvertToAssets(shares, a, s, offset, rounding), a + 1, s + Pow10(offset);
            r.Ok? && low <= r.value <= high <==>
              match rounding
              case Floor => low * t <= shares * p < (high + 1) * t
              case Ceiling => (low - 1) * t < shares * p <= high * t
  {
    MulDivWithin(shares, a + 1, s + Pow10(offset), rounding, low, high);
  }

  /** The four rounding directions of the programs (deposit, mint, withdraw, redeem) all
      favour the pool. */
  lemma DepositFavoursPool(assets: u64, a: u64, s: u64, offset: u8)
    requires ConvertToShares(assets, a, s, offset, Floor).Ok?
    ensures FavoursPool(a, s, Pow10(offset), assets, ConvertToShares(assets, a, s, offset, Floor).value)
  {
    ToSharesRounded(assets, a, s, offset, Floor);
  }

  lemma MintFavoursPool(shares: u64, a: u64, s: u64, offset: u8)
    requires ConvertToAssets(shares, a, s, offset, Ceiling).Ok?
    ensures FavoursPool(a, s, Pow10(offset), ConvertToAssets(shares, a, s, offset, Ceiling).value, shares)
  {
    ToAssetsRounded(shares, a, s, offset, Ceiling);
  }

  lemma WithdrawFavoursPool(assets: u64, a: u64, s: u64, offset: u8)
    requires ConvertToShares(assets, a, s, offset, Ceiling).Ok?
    ensures FavoursPool(a, s, Pow10(offset), 0 - assets, 0 - ConvertToShares(assets, a, s, offset, Ceiling).value)
  {
    ToSharesRounded(assets, a, s, offset, Ceiling);
    var b := ConvertToShares(assets, a, s, offset, Ceiling).value;
    assert (0 - b) * (a + 1) == 0 - (b * (a + 1));
    assert (0 - assets) * (s + Pow10(offset)) == 0 - (assets * (s + Pow10(offset)));
  }

  lemma {:induction false} RedeemFavoursPool(shares: u64, a: u64, s: u64, offset: u8)
    requires ConvertToAssets(shares, a, s, offset, Floor).Ok?
    ensures FavoursPool(a, s, Pow10(offset), 0 - ConvertToAssets(shares, a, s, offset, Floor).value, 0 - shares)
  {
    ToAssetsRounded(shares, a, s, offset, Floor);
    var r := ConvertToAssets(shares, a, s, offset, Floor).value;
    assert (0 - r) * (s + Pow10(offset)) == 0 - (r * (s + Pow10(offset)));
    assert (0 - shares) * (a + 1) == 0 - (shares * (a + 1));
  }

  /** Exact-amount operations are adjoint to the exact-input ones: `mint` charges the least
      deposit that buys the shares, and `withdraw` burns the fewest shares that redeem for the assets. */
  lemma Adjoint(n: u64, m: u64, a: u64, s: u64, offset: u8)
    requires ConvertToShares(n, a, s, offset, Floor).Ok? && ConvertToAssets(m, a, s, offset, Ceiling).Ok?
    ensures ConvertToShares(n, a, s, offset, Floor).value >= m <==> n >= ConvertToAssets(m, a, s, offset, Ceiling).value
  {
    RoundedAdjoint(n, m, s + Pow10(offset), a + 1,
                   ConvertToShares(n, a, s, offset, Floor).value,
                   ConvertToAssets(m, a, s, offset, Ceiling).value);
  }

  lemma AdjointWithdraw(b: u64, x: u64, a: u64, s: u64, offset: u8)
    requires ConvertToAssets(b, a, s, offset, Floor).Ok? && ConvertToShares(x, a, s, offset, Ceiling).Ok?
    ensures ConvertToAssets(b, a, s, offset, Floor).value >= x <==> b >= ConvertToShares(x, a, s, offset, Ceiling).value
  {
    RoundedAdjoint(b, x, a + 1, s + Pow10(offset),
                   ConvertToAssets(b, a, s, offset, Floor).value,
                   ConvertToShares(x, a, s, offset, Ceiling).value);
  }

  lemma RoundedAdjoint(n: nat, m: nat, t: nat, p: nat, fl: int, ce: int)
    requires t > 0 && p > 0
    requires Rounded(n * t, p, Floor, fl) && Rounded(m * p, t, Ceiling, ce)
    ensures fl >= m <==> n >= ce
  {
    if fl >= m && n < ce {
      MulMono(m, fl, p);
      MulMono(n, ce - 1, t);
    }
    if fl < m && n >= ce {
      MulMono(fl + 1, m, p);
      MulMono(ce, n, t);
    }
  }

  /** Redeeming any `shares` of the supply never asks for more than the pool holds. */
  lemma RedeemSolvent(shares: u64, a: u64, s: u64, offset: u8)
    requires shares <= s && ConvertToAssets(shares, a, s, offset, Floor).Ok?
    ensures ConvertToAssets(shares, a, s, offset, Floor).value <= a
  {
    ToAssetsRounded(shares, a, s, offset, Floor);
    var r := ConvertToAssets(shares, a, s, offset, Floor).value;
    var p, t := a + 1, s + Pow10(offset);
    MulMono(shares, t - 1, p);
    assert (t - 1) * p == p * t - p;
    CancelLess(r, p, t);
  }

  /** Redeeming up to the whole supply fits in 64 bits whenever the virtual totals do. */
  lemma RedeemSucceeds(shares: u64, a: u64, s: u64, offset: u8)
    requires shares <= s && a < U64_MAX && s + Pow10(offset) <= U64_MAX
    ensures ConvertToAssets(shares, a, s, offset, Floor).Ok?
  {
    var p, t := a + 1, s + Pow10(offset);
    if MulDiv(shares, p, t, Floor).Err? {
      MulMono(shares, t, p);
      MulMono(p, U64_MAX, t);
    }
  }

  /** Deposit then redeem: no gain, and a loss below one unit plus the price of one share. */
  lemma RoundTripBounds(d: u64, a: u64, s: u64, offset: u8)
    requires ConvertToShares(d, a, s, offset, Floor).Ok?
    requires var b := ConvertToShares(d, a, s, offset, Floor).value;
             a + d <= U64_MAX && s + b <= U64_MAX && ConvertToAssets(b, a + d, s + b, offset, Floor).Ok?
    ensures var b := ConvertToShares(d, a, s, offset, Floor).value;
            var r := ConvertToAssets(b, a + d, s + b, offset, Floor).value;
            r <= d && (d - r - 1) * (s + Pow10(offset)) < a + 1
  {
    var b := ConvertToShares(d, a, s, offset, Floor).value;
    ToSharesRounded(d, a, s, offset, Floor);
    ToAssetsRounded(b, a + d, s + b, offset, Floor);
    RoundTrip(d, b, ConvertToAssets(b, a + d, s + b, offset, Floor).value, a + 1, s + Pow10(offset));
  }

  lemma RoundTrip(d: nat, b: nat, r: nat, p: nat, t: nat)
    requires p > 0 && t > 0
    requires Rounded(d * t, p, Floor, b) && Rounded(b * (p + d), t + b, Floor, r)
    ensures r <= d && (d - r - 1) * t < p
  {
    assert b * (p + d) == b * p + b * d;
    assert d * (t + b) == d * t + b * d;
    CancelLeq(r, d, t + b);
    assert (r + 1) * (t + b) == (r + 1) * t + (r + 1) * b;
    assert (b + 1) * p == b * p + p;
    assert (d - r - 1) * t == d * t - (r + 1) * t;
    assert (r + 1) * b == b * (r + 1);
    if r < d {
      MulMono(r + 1, d, b);
      assert d * b == b * d;
    }
  }

  /** In a pool that backs every `vs` shares by one asset, rounding never acts. */
  lemma ExactShares(n: int, a: int, s: int, vs: int, rounding: Rounding, q: int)
    requires 0 <= n && 0 <= a && 1 <= vs && s == a * vs && Rounded(n * (s + vs), a + 1, rounding, q)
    ensures q == n * vs
  {
    assert s + vs == (a + 1) * vs;
    assert n * ((a + 1) * vs) == (n * vs) * (a + 1);
    MulMono(0, n, vs);
    MulMono(0, n, s + vs);
    RoundedUnique(n * (s + vs), a + 1, rounding, q, n * vs);
  }

  lemma ExactAssets(k: int, a: int, s: int, vs: int, rounding: Rounding, q: int)
    requires 0 <= k && 0 <= a && 1 <= vs && s == a * vs && Rounded(k * vs * (a + 1), s + vs, rounding, q)
    ensures q == k
  {
    assert s + vs == (a + 1) * vs;
    assert k * vs * (a + 1) == k * ((a + 1) * vs);
    MulMono(0, k, s + vs);
    MulMono(1, a + 1, vs);
    RoundedUnique(k * (s + vs), s + vs, rounding, q, k);
  }

  /** In a pool that backs every `10^offset` shares by one asset, every conversion in whole
      assets keeps that rate, rounded either way. */
  lemma ExactToShares(assets: u64, a: u64, s: u64, offset: u8, rounding: Rounding)
    requires s == a * Pow10(offset) && ConvertToShares(assets, a, s, offset, rounding).Ok?
    ensures ConvertToShares(assets, a, s, offset, rounding).value == assets * Pow10(offset)
  {
    ToSharesRounded(assets, a, s, offset, rounding);
    ExactShares(assets, a, s, Pow10(offset), rounding, ConvertToShares(assets, a, s, offset, rounding).value);
  }

  lemma ExactToAssets(shares: u64, a: u64, s: u64, offset: u8, rounding: Rounding)
    requires s == a * Pow10(offset) && shares % Pow10(offset) == 0 && ConvertToAssets(shares, a, s, offset, rounding).Ok?
    ensures shares == ConvertToAssets(shares, a, s, offset, rounding).value * Pow10(offset)
  {
    ToAssetsRounded(shares, a, s, offset, rounding);
    WholeAssets(shares, Pow10(offset));
    ExactAssets(shares / Pow10(offset), a, s, Pow10(offset), rounding, ConvertToAssets(shares, a, s, offset, rounding).value);
  }

  lemma WholeAssets(b: nat, vs: nat)
    requires vs > 0 && b % vs == 0
    ensures b == b / vs * vs
  {}
}
