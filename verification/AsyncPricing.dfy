/** What SVS-10 fulfilments are worth.

    A vault-priced deposit is converted at the vault's totals. A vault-priced redeem is
    converted at the vault's assets but at its live shares, which leave out every escrowed
    share although its backing is still among the assets.
 */
module AsyncPricing {
  import opened Common
  import opened Conversion
  import opened AsyncLedger
  import opened AsyncConservation

  function VirtualOf(s: State): (vs: nat)
    ensures vs >= 1
  {
    Pow10(s.config.decimalsOffset)
  }

  /** The shares a redeem is priced at. */
  function LiveShares(s: State): int {
    s.sharesSupply - s.totalPendingRedeems
  }

  /** The vault's shares a redeem is not priced at: those in escrow, and those burned outside. */
  function LeftOut(s: State): int {
    s.totalShares - LiveShares(s)
  }

  /** The vault's totals, which set its price, move when a deposit is claimed and not before. */
  lemma TotalsMoveAtClaim(s: State, caller: Pubkey, owner: Pubkey, oracle: Option<u64>, maxPrice: u64, now: i64)
    ensures FulfillDeposit(s, caller, owner, oracle, maxPrice, now).Ok? ==>
              var t := FulfillDeposit(s, caller, owner, oracle, maxPrice, now).value;
              t.totalAssets == s.totalAssets && t.totalShares == s.totalShares
    ensures ClaimDeposit(s, caller, owner).Ok? ==>
              var t := ClaimDeposit(s, caller, owner).value;
              && t.totalAssets == s.totalAssets + s.deposits[owner].assetsLocked
              && t.totalShares == s.totalShares + s.deposits[owner].sharesClaimable
  {}

  // ---------------------------------------------------------------- exactness

  /** Every share, issued or promised, is backed at one asset per `10^offset` shares. */
  ghost predicate Exact(s: State) {
    && s.totalShares == s.totalAssets * VirtualOf(s)
    && forall o | o in s.deposits ::
         s.deposits[o].status.Fulfilled? ==> s.deposits[o].sharesClaimable == s.deposits[o].assetsLocked * VirtualOf(s)
  }

  /** What a quoted vault-priced redeem of a reachable state is computed from. */
  lemma QuoteFacts(s: State, caller: Pubkey, owner: Pubkey, minPrice: u64, now: i64, x: External)
    requires Conserved(s, x) && QuoteRedeem(s, caller, owner, None, minPrice, now).Ok?
    ensures 0 <= LiveShares(s) && 0 <= s.redeems[owner].sharesLocked <= LeftOut(s)
    ensures Rounded(s.redeems[owner].sharesLocked * (s.totalAssets + 1), LiveShares(s) + VirtualOf(s), Floor,
                    QuoteRedeem(s, caller, owner, None, minPrice, now).value)
  {
    RedeemsStep(s.redeems, owner, s.redeems[owner]);
    ToAssetsRounded(s.redeems[owner].sharesLocked, s.totalAssets, LiveShares(s), s.config.decimalsOffset, Floor);
  }

  lemma PayoutIff(k: nat, a: nat, vs: nat, b: int, total: int, live: nat, r: int)
    requires vs > 0 && b == k * vs && total == a * vs
    requires Rounded(b * (a + 1), live + vs, Floor, r)
    requires live <= total
    ensures r >= k
    ensures r == k <==> (k + 1) * (total - live) < (a + 1) * vs
  {
    var d := live + vs;
    assert (a + 1) * vs == d + (total - live);
    assert b * (a + 1) == k * ((a + 1) * vs);
    assert k * (d + (total - live)) == k * d + k * (total - live);
    assert (k + 1) * d == k * d + d;
    assert (k + 1) * (total - live) == k * (total - live) + (total - live);
    MulMono(0, k, total - live);
    CancelLess(k, r + 1, d);
    if k * (total - live) < d {
      RoundedUnique(b * (a + 1), d, Floor, r, k);
    }
  }

  /** In an exact state, redeeming the shares of `k` assets never pays less than `k`, and pays
      exactly `k` iff the shares left out of the price are few enough. */
  lemma ExactRedeemIff(s: State, caller: Pubkey, owner: Pubkey, minPrice: u64, now: i64, k: nat, x: External)
    requires Conserved(s, x) && s.totalShares == s.totalAssets * VirtualOf(s)
    requires QuoteRedeem(s, caller, owner, None, minPrice, now).Ok?
    requires s.redeems[owner].sharesLocked == k * VirtualOf(s)
    ensures var r := QuoteRedeem(s, caller, owner, None, minPrice, now).value;
            r >= k && (r == k <==> (k + 1) * LeftOut(s) < (s.totalAssets + 1) * VirtualOf(s))
  {
    QuoteFacts(s, caller, owner, minPrice, now, x);
    PayoutIff(k, s.totalAssets, VirtualOf(s), s.redeems[owner].sharesLocked, s.totalShares, LiveShares(s),
              QuoteRedeem(s, caller, owner, None, minPrice, now).value);
  }

  /** A redeem of whole assets that the condition of `ExactRedeemIff` admits. */
  predicate FairRedeem(s: State, owner: Pubkey) {
    && owner in s.redeems
    && var b := s.redeems[owner].sharesLocked;
       && b % VirtualOf(s) == 0
       && (b / VirtualOf(s) + 1) * LeftOut(s) < (s.totalAssets + 1) * VirtualOf(s)
  }

  predicate FairStep(s: State, op: Op) {
    && (op.FulfillDepositOp? ==> op.oraclePrice.None?)
    && (op.FulfillRedeemOp? ==> op.oraclePrice.None? && FairRedeem(s, op.owner))
  }

  predicate FairRun(s: State, ops: seq<Op>)
    requires Run(s, ops).Ok?
    decreases |ops|
  {
    ops == [] || (FairStep(s, ops[0]) && FairRun(Step(s, ops[0]).value, ops[1..]))
  }

  lemma FulfillDepositExact(s: State, caller: Pubkey, owner: Pubkey, maxPrice: u64, now: i64)
    requires Exact(s) && FulfillDeposit(s, caller, owner, None, maxPrice, now).Ok?
    ensures Exact(FulfillDeposit(s, caller, owner, None, maxPrice, now).value)
  {
    ExactToShares(s.deposits[owner].assetsLocked, s.totalAssets, s.totalShares, s.config.decimalsOffset, Floor);
  }

  lemma ClaimDepositExact(s: State, claimant: Pubkey, owner: Pubkey)
    requires Exact(s) && ClaimDeposit(s, claimant, owner).Ok?
    ensures Exact(ClaimDeposit(s, claimant, owner).value)
  {
    Distribute(s.totalAssets, s.deposits[owner].assetsLocked, VirtualOf(s));
  }

  lemma Distribute(a: int, b: int, c: int)
    ensures (a + b) * c == a * c + b * c
  {}

  lemma DepositStepExact(s: State, op: Op)
    requires DepositSide(op) && DepositStep(s, op).Ok? && Exact(s) && FairStep(s, op)
    ensures Exact(DepositStep(s, op).value)
  {
    match op
    case FulfillDepositOp(caller, owner, _, maxPrice, now) => FulfillDepositExact(s, caller, owner, maxPrice, now);
    case ClaimDepositOp(caller, owner) => ClaimDepositExact(s, caller, owner);
    case _ =>
  }

  lemma FairRedeemPays(s: State, caller: Pubkey, owner: Pubkey, minPrice: u64, now: i64, x: External)
    requires Conserved(s, x) && s.totalShares == s.totalAssets * VirtualOf(s) && FairRedeem(s, owner)
    requires QuoteRedeem(s, caller, owner, None, minPrice, now).Ok?
    ensures QuoteRedeem(s, caller, owner, None, minPrice, now).value * VirtualOf(s) == s.redeems[owner].sharesLocked
  {
    var k := s.redeems[owner].sharesLocked / VirtualOf(s);
    WholeAssets(s.redeems[owner].sharesLocked, VirtualOf(s));
    ExactRedeemIff(s, caller, owner, minPrice, now, k, x);
  }

  lemma RedeemStepExact(s: State, op: Op, x: External)
    requires RedeemSide(op) && RedeemStep(s, op).Ok? && Exact(s) && FairStep(s, op) && Conserved(s, x)
    ensures Exact(RedeemStep(s, op).value)
  {
    if op.FulfillRedeemOp? {
      var r := QuoteRedeem(s, op.caller, op.owner, None, op.minPrice, op.now).value;
      FairRedeemPays(s, op.caller, op.owner, op.minPrice, op.now, x);
      SettleExact(s, op.owner, r, op.now);
    }
  }

  lemma SettleExact(s: State, owner: Pubkey, r: u64, now: i64)
    requires Exact(s) && owner in s.redeems && r * VirtualOf(s) == s.redeems[owner].sharesLocked
    requires SettleRedeem(s, owner, r, now).Ok?
    ensures Exact(SettleRedeem(s, owner, r, now).value)
  {
    assert (s.totalAssets - r) * VirtualOf(s) == s.totalAssets * VirtualOf(s) - r * VirtualOf(s);
  }

  lemma OtherStepExact(s: State, op: Op)
    requires !DepositSide(op) && !RedeemSide(op) && OtherStep(s, op).Ok? && Exact(s)
    ensures Exact(OtherStep(s, op).value)
  {}

  /** In every interleaving of vault-priced fulfilments, whatever their order, each deposit is
      worth `10^offset` shares per asset and, through fair redeems, exactly its assets again. */
  lemma {:induction false} FairRunExact(s: State, ops: seq<Op>, x: External)
    requires Run(s, ops).Ok? && FairRun(s, ops) && Exact(s) && Conserved(s, x)
    ensures Exact(Run(s, ops).value)
    decreases |ops|
  {
    if ops != [] {
      var op := ops[0];
      if DepositSide(op) {
        DepositStepExact(s, op);
      } else if RedeemSide(op) {
        RedeemStepExact(s, op, x);
      } else {
        OtherStepExact(s, op);
      }
      StepConserved(s, op, x);
      FairRunExact(Step(s, op).value, ops[1..], Plus(x, Effect(op)));
    }
  }

  /** So from a new vault on. */
  lemma FairFromStart(authority: Pubkey, operator: Pubkey, offset: u8, ops: seq<Op>)
    requires var s := Initial(authority, operator, offset); Run(s, ops).Ok? && FairRun(s, ops)
    ensures Exact(Run(Initial(authority, operator, offset), ops).value)
  {
    InitialConserved(authority, operator, offset);
    FairRunExact(Initial(authority, operator, offset), ops, NOTHING);
  }

  // ---------------------------------------------------------------- the price and redeems

  lemma OverpaidIff(a: nat, s: nat, vs: nat, b: nat, d: nat, r: int)
    requires 0 < d <= s + vs
    requires Rounded(b * (a + 1), d, Floor, r)
    ensures var q := Quotient(b * (a + 1), s + vs, Floor);
            PriceAtLeast(a, s, a - r, s - b, vs) <==> (q + 1) * d > b * (a + 1)
  {
    var q := Quotient(b * (a + 1), s + vs, Floor);
    var p, t := a + 1, s + vs;
    assert (a + 1) * (s - b + vs) == p * t - b * p;
    assert (a - r + 1) * (s + vs) == p * t - r * t;
    if r * t <= b * p {
      CancelLess(r, q + 1, t);
      MulMono(r + 1, q + 1, d);
    }
    if (q + 1) * d > b * p {
      CancelLess(r, q + 1, d);
      MulMono(r, q, t);
    }
  }

  lemma FulfillTotals(s: State, caller: Pubkey, owner: Pubkey, minPrice: u64, now: i64)
    requires FulfillRedeem(s, caller, owner, None, minPrice, now).Ok?
    ensures var t := FulfillRedeem(s, caller, owner, None, minPrice, now).value;
            var r := QuoteRedeem(s, caller, owner, None, minPrice, now).value;
            t.totalAssets == s.totalAssets - r && t.totalShares == s.totalShares - s.redeems[owner].sharesLocked
  {}

  /** A vault-priced redeem keeps the share price iff rounding hides the shares left out:
      pricing `b` shares at the live total must not reach one asset more than pricing them at
      the vault's total, `q`. */
  lemma RedeemKeepsPriceIff(s: State, caller: Pubkey, owner: Pubkey, minPrice: u64, now: i64, x: External)
    requires Conserved(s, x) && FulfillRedeem(s, caller, owner, None, minPrice, now).Ok?
    ensures var t := FulfillRedeem(s, caller, owner, None, minPrice, now).value;
            var b, p := s.redeems[owner].sharesLocked, s.totalAssets + 1;
            var q := Quotient(b * p, s.totalShares + VirtualOf(s), Floor);
            PriceAtLeast(s.totalAssets, s.totalShares, t.totalAssets, t.totalShares, VirtualOf(s))
            <==> (q + 1) * (LiveShares(s) + VirtualOf(s)) > b * p
  {
    FulfillTotals(s, caller, owner, minPrice, now);
    QuoteFacts(s, caller, owner, minPrice, now, x);
    var b := s.redeems[owner].sharesLocked;
    OverpaidIff(s.totalAssets, s.totalShares, VirtualOf(s), b, LiveShares(s) + VirtualOf(s),
                QuoteRedeem(s, caller, owner, None, minPrice, now).value);
  }

  // ---------------------------------------------------------------- leaving all at once

  lemma EscrowedQuote(b: u64, a: u64, offset: u8)
    requires a < U64_MAX && Pow10(offset) <= U64_MAX
    ensures var quote := ConvertToAssets(b, a, 0, offset, Floor);
            quote.Ok? && 0 < quote.value <= a <==> b < Pow10(offset) && Pow10(offset) <= b * (a + 1)
  {
    var vs := Pow10(offset);
    var quote := ConvertToAssets(b, a, 0, offset, Floor);
    if quote.Ok? {
      ToAssetsRounded(b, a, 0, offset, Floor);
      EscrowedValue(b, a, vs, quote.value);
    } else if b < vs {
      RedeemFits(b, a, vs);
    }
  }

  lemma EscrowedValue(b: nat, a: nat, vs: nat, r: int)
    requires vs > 0 && Rounded(b * (a + 1), vs, Floor, r)
    ensures 0 < r <= a <==> b < vs && vs <= b * (a + 1)
  {
    assert (b + 1) * (a + 1) == b * (a + 1) + (a + 1);
    assert vs * (a + 1) == (a + 1) * vs;
    if b < vs {
      MulMono(b + 1, vs, a + 1);
      CancelLess(r, a + 1, vs);
    } else {
      MulMono(vs, b, a + 1);
      CancelLess(a + 1, r + 1, vs);
    }
    if r <= 0 { MulMono(r + 1, 1, vs); } else { MulMono(1, r, vs); }
  }

  lemma RedeemFits(b: u64, a: u64, vs: u64)
    requires a < U64_MAX && b < vs
    ensures b * (a + 1) <= U64_MAX * vs
  {
    MulMono(b, vs, a + 1);
    MulMono(a + 1, U64_MAX, vs);
    assert vs * (a + 1) == (a + 1) * vs;
  }

  /** In a reachable state a quoted payment fails to settle only for want of counted assets. */
  lemma SettleEnabled(s: State, owner: Pubkey, assets: u64, now: i64, x: External)
    requires Conserved(s, x) && owner in s.redeems && s.redeems[owner].status.Pending?
    ensures SettleRedeem(s, owner, assets, now).Ok? <==> assets <= s.totalAssets
  {
    RedeemsStep(s.redeems, owner, s.redeems[owner]);
  }

  /** When no share is live, whether a redeem is quoted. */
  lemma LastQuoteIff(s: State, caller: Pubkey, owner: Pubkey, now: i64, x: External)
    requires Conserved(s, x) && LiveShares(s) == 0
    ensures QuoteRedeem(s, caller, owner, None, 0, now).Ok? <==>
              && !s.config.paused
              && owner in s.redeems && s.redeems[owner].status.Pending?
              && (caller == s.config.operator || ApprovalOf(s, owner, caller).canFulfillRedeem)
              && CheckDeadline(s.config.cancelAfter, s.redeems[owner].requestedAt, now).Pass?
              && var quote := ConvertToAssets(s.redeems[owner].sharesLocked, s.totalAssets, 0, s.config.decimalsOffset, Floor);
                 quote.Ok? && 0 < quote.value
    ensures QuoteRedeem(s, caller, owner, None, 0, now).Ok? ==>
              QuoteRedeem(s, caller, owner, None, 0, now)
              == ConvertToAssets(s.redeems[owner].sharesLocked, s.totalAssets, 0, s.config.decimalsOffset, Floor)
  {}

  /** With every share in escrow, a vault-priced redeem that passes the guards is accepted iff
      it is smaller than the virtual shares and worth at least one asset. */
  lemma LastExitIff(s: State, caller: Pubkey, owner: Pubkey, now: i64, x: External)
    requires Conserved(s, x) && LiveShares(s) == 0
    requires s.totalAssets < U64_MAX && VirtualOf(s) <= U64_MAX
    ensures FulfillRedeem(s, caller, owner, None, 0, now).Ok? <==>
              && !s.config.paused
              && owner in s.redeems && s.redeems[owner].status.Pending?
              && (caller == s.config.operator || ApprovalOf(s, owner, caller).canFulfillRedeem)
              && CheckDeadline(s.config.cancelAfter, s.redeems[owner].requestedAt, now).Pass?
              && s.redeems[owner].sharesLocked < VirtualOf(s)
              && VirtualOf(s) <= s.redeems[owner].sharesLocked * (s.totalAssets + 1)
  {
    LastQuoteIff(s, caller, owner, now, x);
    if owner in s.redeems {
      EscrowedQuote(s.redeems[owner].sharesLocked, s.totalAssets, s.config.decimalsOffset);
      if QuoteRedeem(s, caller, owner, None, 0, now).Ok? {
        SettleEnabled(s, owner, QuoteRedeem(s, caller, owner, None, 0, now).value, now, x);
      }
    }
  }

  /** So the drain that the devnet script expects is refused: with the whole supply of an exact,
      non-empty vault in one redeem request, no vault-priced fulfilment succeeds. */
  lemma FullDrainRefused(s: State, caller: Pubkey, owner: Pubkey, minPrice: u64, now: i64, x: External)
    requires Conserved(s, x) && s.totalShares == s.totalAssets * VirtualOf(s) && s.totalAssets >= 1
    requires owner in s.redeems && s.redeems[owner].status.Pending? && s.redeems[owner].sharesLocked == s.totalShares
    ensures FulfillRedeem(s, caller, owner, None, minPrice, now).Err?
  {
    if QuoteRedeem(s, caller, owner, None, minPrice, now).Ok? {
      QuoteFacts(s, caller, owner, minPrice, now, x);
      MulMono(1, s.totalAssets, VirtualOf(s));
      EscrowedValue(s.totalShares, s.totalAssets, VirtualOf(s), QuoteRedeem(s, caller, owner, None, minPrice, now).value);
    }
  }

  // ---------------------------------------------------------------- oracle prices

  /** An accepted oracle price deviates from the NAV price by at most the configured fraction,
      and grants no more shares than the deposit is worth at it. */
  lemma OracleDeposit(s: State, assets: u64, price: u64)
    requires DepositShares(s, assets, Some(price)).Ok?
    ensures DepositShares(s, assets, Some(price)).value * price <= assets * PRICE_SCALE
    ensures var e := ExpectedPrice(s, s.totalShares).value;
            (if price > e then price - e else e - price) * BPS_DENOMINATOR < (s.config.maxDeviationBps + 1) * e
  {
    var e := ExpectedPrice(s, s.totalShares).value;
    var diff := if price > e then price - e else e - price;
    if e > 0 {
      var q := Quotient(diff * BPS_DENOMINATOR, e, Floor);
      MulMono(q + 1, s.config.maxDeviationBps + 1, e);
    }
  }

  /** The first deposit is not exempt: in a vault without assets or shares an oracle price is
      accepted exactly within the bound around `PRICE_SCALE`. */
  lemma FirstOraclePriceIff(s: State, assets: u64, price: u64)
    requires Nav(s) == Ok(0) && s.totalShares == 0
    ensures DepositShares(s, assets, Some(price)).Ok? <==>
              && price > 0 && (if price > PRICE_SCALE then price - PRICE_SCALE else PRICE_SCALE - price) * BPS_DENOMINATOR
                              < (s.config.maxDeviationBps + 1) * PRICE_SCALE
              && assets * PRICE_SCALE < (U64_MAX + 1) * price
    ensures price == 2 * PRICE_SCALE && s.config.maxDeviationBps == 500 ==>
              DepositShares(s, assets, Some(price)) == Err(OracleDeviationExceeded)
  {
    var diff := if price > PRICE_SCALE then price - PRICE_SCALE else PRICE_SCALE - price;
    BoundIff(diff * BPS_DENOMINATOR, PRICE_SCALE, s.config.maxDeviationBps);
    if price > 0 {
      BoundIff(assets * PRICE_SCALE, price, U64_MAX);
    }
  }

  lemma BoundIff(n: nat, d: nat, bound: nat)
    requires d > 0
    ensures Quotient(n, d, Floor) <= bound <==> n < (bound + 1) * d
  {
    var q := Quotient(n, d, Floor);
    if q <= bound { MulMono(q + 1, bound + 1, d); } else { MulMono(bound + 1, q, d); }
  }

  /** Depositing and redeeming at one oracle price returns no more than was deposited. */
  lemma OracleRoundTrip(s: State, t: State, assets: u64, live: u64, price: u64)
    requires DepositShares(s, assets, Some(price)).Ok?
    requires RedeemAssets(t, DepositShares(s, assets, Some(price)).value, live, Some(price)).Ok?
    ensures RedeemAssets(t, DepositShares(s, assets, Some(price)).value, live, Some(price)).value <= assets
  {
    OracleDeposit(s, assets, price);
    var shares := DepositShares(s, assets, Some(price)).value;
    CancelLeq(RedeemAssets(t, shares, live, Some(price)).value, assets, PRICE_SCALE);
  }
}
