/** What the instructions of SVS-10 answer: exactly when each commits, for which amounts, and whose
    accounts and requests it changes. */
module AsyncRequests {
  import opened Common
  import opened Conversion
  import Sums
  import opened AsyncLedger
  import opened AsyncConservation
  import opened AsyncPricing

  // ---------------------------------------------------------------- who, when, at which price

  /** The operator, or who is `approved` for it, may fulfil a request made at `requestedAt`. */
  predicate MayFulfil(s: State, caller: Pubkey, approved: bool, requestedAt: i64, now: i64) {
    && !s.config.paused && (caller == s.config.operator || approved)
    && (s.config.cancelAfter > 0 ==> now < requestedAt + s.config.cancelAfter <= I64_MAX)
  }

  /** All assets in the vault that belong to anybody. */
  function NavOf(s: State): nat {
    s.totalAssets + s.totalPendingDeposits + s.totalFulfilledDeposits
  }

  /** The virtual totals of this price fit in 64 bits. */
  predicate Priceable(s: State, assets: int, shares: int) {
    assets < U64_MAX && shares + VirtualOf(s) <= U64_MAX
  }

  /** `e` is what an oracle price is compared with: all of those assets for each of `shares`, and at first
      the fixed price. */
  predicate NavPrice(s: State, shares: int, e: int) {
    if NavOf(s) == 0 && shares == 0 then e == PRICE_SCALE
    else Rounded(PRICE_SCALE * (NavOf(s) + 1), shares + VirtualOf(s), Floor, e)
  }

  /** That price can be computed. */
  predicate NavFits(s: State, shares: int, e: int) {
    ((NavOf(s) == 0 && shares == 0) || Priceable(s, NavOf(s), shares)) && e <= U64_MAX
  }

  /** The price is within the configured fraction of `e`. */
  predicate Within(s: State, price: u64, e: int) {
    (if price > e then price - e else e - price) * BPS_DENOMINATOR < (s.config.maxDeviationBps + 1) * e
  }

  /** The vault's price can be computed; an oracle's is positive and within that fraction. */
  predicate Accepted(s: State, shares: int, oracle: Option<u64>, e: int) {
    match oracle
    case None => Priceable(s, s.totalAssets, shares)
    case Some(price) => 0 < price && NavFits(s, shares, e) && Within(s, price, e)
  }

  lemma ExpectedIff(s: State, shares: u64, e: int, x: External)
    requires Conserved(s, x) && NavPrice(s, shares, e)
    ensures ExpectedPrice(s, shares) == if NavFits(s, shares, e) then Ok(e) else Err(MathOverflow)
  {
    assert Nav(s) == Ok(NavOf(s));
    if (NavOf(s) > 0 || shares > 0) && Priceable(s, NavOf(s), shares) {
      ToAssetsIs(PRICE_SCALE, NavOf(s), shares, s.config.decimalsOffset, e);
    }
  }

  lemma ToAssetsIs(shares: u64, a: u64, supply: u64, offset: u8, q: int)
    requires a < U64_MAX && supply + Pow10(offset) <= U64_MAX && Rounded(shares * (a + 1), supply + Pow10(offset), Floor, q)
    ensures ConvertToAssets(shares, a, supply, offset, Floor).Ok? <==> q <= U64_MAX
    ensures q <= U64_MAX ==> ConvertToAssets(shares, a, supply, offset, Floor) == Ok(q)
  {
    QuotientIs(shares, a + 1, supply + Pow10(offset), q);
  }

  lemma QuotientIs(value: u64, numerator: u64, denominator: u64, n: int)
    requires denominator > 0 && Rounded(value * numerator, denominator, Floor, n)
    ensures MulDiv(value, numerator, denominator, Floor).Ok? <==> n <= U64_MAX
    ensures n <= U64_MAX ==> MulDiv(value, numerator, denominator, Floor) == Ok(n)
  {
    ProductNonNegative(value, numerator);
    MulDivWithin(value, numerator, denominator, Floor, 0, U64_MAX);
    FloorAtLeast(value * numerator, denominator, n, U64_MAX + 1);
    if n <= U64_MAX {
      RoundedUnique(value * numerator, denominator, Floor, n, MulDiv(value, numerator, denominator, Floor).value);
    }
  }

  lemma DeviationIff(price: u64, e: u64, bps: u16)
    requires price > 0
    ensures CheckDeviation(price, e, bps).Pass? <==>
              (if price > e then price - e else e - price) * BPS_DENOMINATOR < (bps + 1) * e
    ensures CheckDeviation(price, e, bps).Refuse? ==> CheckDeviation(price, e, bps).error == OracleDeviationExceeded
  {
    if e > 0 {
      BoundIff((if price > e then price - e else e - price) * BPS_DENOMINATOR, e, bps);
    }
  }

  /** Exactly when the oracle's price passes, for deposits and redeems alike. */
  lemma AcceptedIff(s: State, shares: u64, price: u64, e: int, x: External)
    requires Conserved(s, x) && NavPrice(s, shares, e)
    ensures Accepted(s, shares, Some(price), e) <==>
              && price != 0 && ExpectedPrice(s, shares).Ok?
              && CheckDeviation(price, ExpectedPrice(s, shares).value, s.config.maxDeviationBps).Pass?
  {
    ExpectedIff(s, shares, e, x);
    if price > 0 && 0 <= e <= U64_MAX { DeviationIff(price, e, s.config.maxDeviationBps); }
  }

  // ---------------------------------------------------------------- fulfilled deposits

  /** `n` shares are what `assets` are worth at the vault's totals, or at the oracle's price, rounded down. */
  predicate DepositWorth(s: State, assets: u64, oracle: Option<u64>, n: int) {
    match oracle
    case None => Rounded(assets * (s.totalShares + VirtualOf(s)), s.totalAssets + 1, Floor, n)
    case Some(price) => price > 0 ==> Rounded(assets * PRICE_SCALE, price, Floor, n)
  }

  lemma DepositSharesIff(s: State, assets: u64, oracle: Option<u64>, e: int, n: int, x: External)
    requires Conserved(s, x) && NavPrice(s, s.totalShares, e) && DepositWorth(s, assets, oracle, n)
    ensures DepositShares(s, assets, oracle).Ok? <==> Accepted(s, s.totalShares, oracle, e) && n <= U64_MAX
    ensures DepositShares(s, assets, oracle).Ok? ==> DepositShares(s, assets, oracle).value == n
  {
    match oracle
    case None =>
      if Priceable(s, s.totalAssets, s.totalShares) {
        QuotientIs(assets, s.totalShares + VirtualOf(s), s.totalAssets + 1, n);
      }
    case Some(price) =>
      AcceptedIff(s, s.totalShares, price, e, x);
      if price > 0 { QuotientIs(assets, PRICE_SCALE, price, n); }
  }

  /** `assets` for `shares` cost at most `maxPrice` a share, scaled and rounded down, unless that is zero. */
  predicate NotAbove(assets: int, shares: int, maxPrice: u64) {
    maxPrice > 0 ==> assets * PRICE_SCALE < (maxPrice + 1) * shares
  }

  lemma QuoteDepositIff(s: State, caller: Pubkey, owner: Pubkey, oracle: Option<u64>, maxPrice: u64, now: i64)
    requires owner in s.deposits
    ensures var r := s.deposits[owner]; var shares := DepositShares(s, r.assetsLocked, oracle);
            QuoteDeposit(s, caller, owner, oracle, maxPrice, now).Ok? <==>
              && r.status.Pending? && MayFulfil(s, caller, ApprovalOf(s, owner, caller).canFulfillDeposit, r.requestedAt, now)
              && shares.Ok? && shares.value > 0 && NotAbove(r.assetsLocked, shares.value, maxPrice)
    ensures QuoteDeposit(s, caller, owner, oracle, maxPrice, now).Ok? ==>
              QuoteDeposit(s, caller, owner, oracle, maxPrice, now) == DepositShares(s, s.deposits[owner].assetsLocked, oracle)
  {
    var assets := s.deposits[owner].assetsLocked;
    var shares := DepositShares(s, assets, oracle);
    if shares.Ok? && shares.value > 0 && maxPrice > 0 {
      ProductNonNegative(assets, PRICE_SCALE);
      MulDivWithin(assets, PRICE_SCALE, shares.value, Floor, 0, maxPrice);
    }
  }

  lemma AcceptDepositSucceeds(s: State, owner: Pubkey, shares: u64, now: i64, x: External)
    requires Conserved(s, x) && owner in s.deposits && s.deposits[owner].status.Pending?
    ensures AcceptDeposit(s, owner, shares, now).Ok?
  {
    DepositsStep(s.deposits, owner, s.deposits[owner]);
  }

  /** Exactly when a deposit is fulfilled, at the vault's price or the oracle's: by whom, in time, at an
      accepted price, for some shares and at no higher a price than the operator allows. */
  lemma FulfillDepositIff(s: State, caller: Pubkey, owner: Pubkey, oracle: Option<u64>, maxPrice: u64, now: i64, e: int, n: int, x: External)
    requires Conserved(s, x) && NavPrice(s, s.totalShares, e)
    requires owner in s.deposits && DepositWorth(s, s.deposits[owner].assetsLocked, oracle, n)
    ensures var r := s.deposits[owner];
            FulfillDeposit(s, caller, owner, oracle, maxPrice, now).Ok? <==>
              && r.status.Pending? && MayFulfil(s, caller, ApprovalOf(s, owner, caller).canFulfillDeposit, r.requestedAt, now)
              && Accepted(s, s.totalShares, oracle, e) && 0 < n <= U64_MAX && NotAbove(r.assetsLocked, n, maxPrice)
    ensures FulfillDeposit(s, caller, owner, oracle, maxPrice, now).Ok? ==>
              FulfillDeposit(s, caller, owner, oracle, maxPrice, now).value.deposits[owner].sharesClaimable == n
  {
    QuoteDepositIff(s, caller, owner, oracle, maxPrice, now);
    DepositSharesIff(s, s.deposits[owner].assetsLocked, oracle, e, n, x);
    if QuoteDeposit(s, caller, owner, oracle, maxPrice, now).Ok? {
      AcceptDepositSucceeds(s, owner, n, now, x);
    }
  }

  /** A fulfilment grants shares to the one request, moves its assets from one counter to the other, and
      touches nothing else; at the vault's price it grants what the assets buy, rounded down. */
  lemma FulfillDepositGrants(s: State, caller: Pubkey, owner: Pubkey, oracle: Option<u64>, maxPrice: u64, now: i64)
    requires FulfillDeposit(s, caller, owner, oracle, maxPrice, now).Ok?
    ensures var t := FulfillDeposit(s, caller, owner, oracle, maxPrice, now).value;
            && owner in s.deposits && owner in t.deposits && s.deposits[owner].status.Pending?
            && var d, n, p := s.deposits[owner].assetsLocked, t.deposits[owner].sharesClaimable, s.totalAssets + 1;
            && t.deposits[owner] == s.deposits[owner].(sharesClaimable := n, status := Fulfilled, fulfilledAt := now)
            && t.deposits - {owner} == s.deposits - {owner}
            && t.totalPendingDeposits == s.totalPendingDeposits - d && t.totalFulfilledDeposits == s.totalFulfilledDeposits + d
            && t == s.(deposits := t.deposits, totalPendingDeposits := t.totalPendingDeposits, totalFulfilledDeposits := t.totalFulfilledDeposits)
            && 0 < n && (oracle.None? ==> n * p <= d * (s.totalShares + VirtualOf(s)) < (n + 1) * p)
  {
    if oracle.None? {
      ToSharesRounded(s.deposits[owner].assetsLocked, s.totalAssets, s.totalShares, s.config.decimalsOffset, Floor);
    }
  }

  // ---------------------------------------------------------------- claimed deposits

  /** A claim credits the receiver with the granted shares, and nobody else; it closes the one request and
      counts its assets and shares. */
  lemma ClaimDepositPays(s: State, claimant: Pubkey, owner: Pubkey, u: Pubkey)
    requires ClaimDeposit(s, claimant, owner).Ok?
    ensures var t := ClaimDeposit(s, claimant, owner).value;
            && owner in s.deposits
            && var r := s.deposits[owner];
            && Get(t.holdings, u) == Get(s.holdings, u) + (if u == r.receiver then r.sharesClaimable else 0)
            && t.deposits == s.deposits - {owner} && t.sharesSupply == s.sharesSupply + r.sharesClaimable
            && t.totalAssets == s.totalAssets + r.assetsLocked && t.totalShares == s.totalShares + r.sharesClaimable
            && t.totalFulfilledDeposits == s.totalFulfilledDeposits - r.assetsLocked
            && t == s.(holdings := t.holdings, deposits := t.deposits, sharesSupply := t.sharesSupply, totalAssets := t.totalAssets,
                       totalShares := t.totalShares, totalFulfilledDeposits := t.totalFulfilledDeposits)
  {}

  /** A claim keeps the share price if and only if the shares were granted at no lower a price than it has
      become. */
  lemma ClaimKeepsPriceIff(s: State, claimant: Pubkey, owner: Pubkey)
    requires ClaimDeposit(s, claimant, owner).Ok?
    ensures var t, r := ClaimDeposit(s, claimant, owner).value, s.deposits[owner];
            PriceAtLeast(s.totalAssets, s.totalShares, t.totalAssets, t.totalShares, VirtualOf(s))
            <==> r.sharesClaimable * (s.totalAssets + 1) <= r.assetsLocked * (s.totalShares + VirtualOf(s))
  {
    TotalsMoveAtClaim(s, claimant, owner, None, 0, 0);
    FavoursPoolIffPriceKept(s.totalAssets, s.totalShares, VirtualOf(s), s.deposits[owner].assetsLocked, s.deposits[owner].sharesClaimable);
  }

  lemma StillBelow(n: nat, d: nat, p0: nat, t0: nat, p1: nat, t1: nat)
    requires p0 > 0 && n * p0 <= d * t0 && p1 * t0 <= p0 * t1
    ensures n * p1 <= d * t1
  {
    assert t0 * d == d * t0 && t0 * p1 == p1 * t0 && t1 * p0 == p0 * t1;
    RatioTransitive(n, d, t0, p0, t1, p1);
    assert t1 * d == d * t1;
  }

  /** So of a deposit fulfilled at the vault's price, when it is claimed, whatever happened meanwhile, from
      a vault priced no higher. */
  lemma VaultPricedClaimKeepsPrice(s: State, caller: Pubkey, owner: Pubkey, maxPrice: u64, now: i64, u: State, claimant: Pubkey)
    requires FulfillDeposit(s, caller, owner, None, maxPrice, now).Ok?
    requires ClaimDeposit(u, claimant, owner).Ok? && VirtualOf(u) == VirtualOf(s)
    requires u.deposits[owner] == FulfillDeposit(s, caller, owner, None, maxPrice, now).value.deposits[owner]
    requires PriceAtLeast(u.totalAssets, u.totalShares, s.totalAssets, s.totalShares, VirtualOf(s))
    ensures var t := ClaimDeposit(u, claimant, owner).value;
            PriceAtLeast(u.totalAssets, u.totalShares, t.totalAssets, t.totalShares, VirtualOf(u))
  {
    FulfillDepositGrants(s, caller, owner, None, maxPrice, now);
    ClaimKeepsPriceIff(u, claimant, owner);
    StillBelow(u.deposits[owner].sharesClaimable, u.deposits[owner].assetsLocked,
               s.totalAssets + 1, s.totalShares + VirtualOf(s), u.totalAssets + 1, u.totalShares + VirtualOf(s));
  }

  // ---------------------------------------------------------------- requests and cancellations

  /** Exactly when a deposit is requested, and that it is the only thing recorded. */
  lemma RequestDepositIff(s: State, user: Pubkey, assets: u64, receiver: Pubkey, now: i64, x: External)
    requires Conserved(s, x)
    ensures RequestDeposit(s, user, assets, receiver, now).Ok? <==>
              !s.config.paused && user !in s.deposits && MIN_DEPOSIT_AMOUNT <= assets && s.assetVault + assets <= U64_MAX
    ensures RequestDeposit(s, user, assets, receiver, now).Ok? ==>
              var t := RequestDeposit(s, user, assets, receiver, now).value;
              && user in t.deposits && t.deposits[user] == DepositRequest(receiver, assets, 0, Pending, now, 0)
              && t.deposits - {user} == s.deposits
              && t.assetVault == s.assetVault + assets && t.totalPendingDeposits == s.totalPendingDeposits + assets
              && t == s.(deposits := t.deposits, assetVault := t.assetVault, totalPendingDeposits := t.totalPendingDeposits)
  {}

  /** Exactly when a redeem is requested: the user holds the shares; they move to the escrow. */
  lemma RequestRedeemIff(s: State, user: Pubkey, shares: u64, receiver: Pubkey, now: i64, u: Pubkey, x: External)
    requires Conserved(s, x)
    ensures RequestRedeem(s, user, shares, receiver, now).Ok? <==>
              !s.config.paused && user !in s.redeems && 0 < shares <= Get(s.holdings, user)
    ensures RequestRedeem(s, user, shares, receiver, now).Ok? ==>
              var t := RequestRedeem(s, user, shares, receiver, now).value;
              && user in t.redeems && t.redeems[user] == RedeemRequest(receiver, shares, 0, Pending, now, 0)
              && t.redeems - {user} == s.redeems
              && Get(t.holdings, u) == Get(s.holdings, u) - (if u == user then shares else 0)
              && t.shareEscrow == s.shareEscrow + shares && t.totalPendingRedeems == s.totalPendingRedeems + shares
              && t == s.(redeems := t.redeems, holdings := t.holdings, shareEscrow := t.shareEscrow, totalPendingRedeems := t.totalPendingRedeems)
  {
    Sums.HoldingsStep(s.holdings, user, 0);
  }

  /** A cancelled deposit closes the one request and pays out of the vault's account what it locked; a
      cancelled redeem gives its shares back to its owner, and to nobody else. */
  lemma CancelEffects(s: State, user: Pubkey, now: i64, u: Pubkey)
    ensures CancelDeposit(s, user, now).Ok? ==>
              var t := CancelDeposit(s, user, now).value;
              && user in s.deposits && t.deposits == s.deposits - {user}
              && t.assetVault == s.assetVault - s.deposits[user].assetsLocked
              && t.totalPendingDeposits == s.totalPendingDeposits - s.deposits[user].assetsLocked
              && t == s.(deposits := t.deposits, assetVault := t.assetVault, totalPendingDeposits := t.totalPendingDeposits)
    ensures CancelRedeem(s, user).Ok? ==>
              var t := CancelRedeem(s, user).value;
              && user in s.redeems && t.redeems == s.redeems - {user}
              && Get(t.holdings, u) == Get(s.holdings, u) + (if u == user then s.redeems[user].sharesLocked else 0)
              && t.shareEscrow == s.shareEscrow - s.redeems[user].sharesLocked
              && t.totalPendingRedeems == s.totalPendingRedeems - s.redeems[user].sharesLocked
              && t == s.(redeems := t.redeems, holdings := t.holdings, shareEscrow := t.shareEscrow, totalPendingRedeems := t.totalPendingRedeems)
  {}

  // ---------------------------------------------------------------- fulfilled and claimed redeems

  /** `r` assets are what `shares` are worth at the live shares, or at the oracle's price, rounded down. */
  predicate RedeemWorth(s: State, shares: u64, oracle: Option<u64>, r: int) {
    match oracle
    case None => Rounded(shares * (s.totalAssets + 1), LiveShares(s) + VirtualOf(s), Floor, r)
    case Some(price) => Rounded(shares * price, PRICE_SCALE, Floor, r)
  }

  lemma LiveWithin(s: State, x: External)
    requires Conserved(s, x)
    ensures 0 <= LiveShares(s) <= s.totalShares
  {}

  lemma RedeemAssetsIff(s: State, shares: u64, oracle: Option<u64>, e: int, r: int, x: External)
    requires Conserved(s, x) && 0 <= LiveShares(s) <= s.totalShares
    requires NavPrice(s, LiveShares(s), e) && RedeemWorth(s, shares, oracle, r)
    ensures RedeemAssets(s, shares, LiveShares(s), oracle).Ok? <==> Accepted(s, LiveShares(s), oracle, e) && r <= U64_MAX
    ensures RedeemAssets(s, shares, LiveShares(s), oracle).Ok? ==> RedeemAssets(s, shares, LiveShares(s), oracle).value == r
  {
    match oracle
    case None =>
      if Priceable(s, s.totalAssets, LiveShares(s)) {
        ToAssetsIs(shares, s.totalAssets, LiveShares(s), s.config.decimalsOffset, r);
      }
    case Some(price) =>
      AcceptedIff(s, LiveShares(s), price, e, x);
      QuotientIs(shares, price, PRICE_SCALE, r);
  }

  /** `assets` for `shares` pay at least `minPrice` a share, scaled and rounded down, unless that is zero. */
  predicate NotBelow(assets: int, shares: int, minPrice: u64) {
    minPrice > 0 ==> minPrice * shares <= assets * PRICE_SCALE < (U64_MAX + 1) * shares
  }

  lemma NothingForNothing(s: State, live: u64, oracle: Option<u64>)
    ensures RedeemAssets(s, 0, live, oracle).Ok? ==> RedeemAssets(s, 0, live, oracle).value == 0
  {
    if RedeemAssets(s, 0, live, oracle).Ok? && oracle.None? {
      ToAssetsRounded(0, s.totalAssets, live, s.config.decimalsOffset, Floor);
      CancelLess(RedeemAssets(s, 0, live, oracle).value, 1, live + VirtualOf(s));
    }
  }

  /** The program's slippage check of a redeem. */
  lemma NotBelowIff(assets: u64, shares: u64, minPrice: u64)
    requires shares > 0
    ensures NotBelow(assets, shares, minPrice) <==>
              var price := if minPrice > 0 && shares > 0 then MulDiv(assets, PRICE_SCALE, shares, Floor) else Ok(minPrice);
              price.Ok? && price.value >= minPrice
  {
    MulDivWithin(assets, PRICE_SCALE, shares, Floor, minPrice, U64_MAX);
  }

  lemma PendingUnclaimable(s: State, owner: Pubkey, x: External)
    requires Conserved(s, x) && owner in s.redeems && s.redeems[owner].status.Pending?
    ensures owner !in s.claimable
  {}

  lemma QuoteRedeemIff(s: State, caller: Pubkey, owner: Pubkey, oracle: Option<u64>, minPrice: u64, now: i64)
    requires owner in s.redeems && 0 <= LiveShares(s) && (s.redeems[owner].status.Pending? ==> owner !in s.claimable)
    ensures var r := s.redeems[owner]; var assets := RedeemAssets(s, r.sharesLocked, LiveShares(s), oracle);
            && (QuoteRedeem(s, caller, owner, oracle, minPrice, now).Ok? <==>
                  && r.status.Pending? && MayFulfil(s, caller, ApprovalOf(s, owner, caller).canFulfillRedeem, r.requestedAt, now)
                  && assets.Ok? && assets.value > 0 && NotBelow(assets.value, r.sharesLocked, minPrice))
            && (QuoteRedeem(s, caller, owner, oracle, minPrice, now).Ok? ==> QuoteRedeem(s, caller, owner, oracle, minPrice, now) == assets)
  {
    var shares := s.redeems[owner].sharesLocked;
    var assets := RedeemAssets(s, shares, LiveShares(s), oracle);
    if shares == 0 {
      NothingForNothing(s, LiveShares(s), oracle);
    } else if assets.Ok? {
      NotBelowIff(assets.value, shares, minPrice);
    }
  }

  lemma SettleSets(s: State, owner: Pubkey, assets: u64, now: i64)
    requires owner in s.redeems && SettleRedeem(s, owner, assets, now).Ok?
    ensures var t := SettleRedeem(s, owner, assets, now).value; owner in t.redeems && t.redeems[owner].assetsClaimable == assets
  {}

  /** Exactly when a redeem is fulfilled, at the vault's price or the oracle's; beside the guards of a deposit,
      the vault must count as many assets. */
  lemma FulfillRedeemIff(s: State, caller: Pubkey, owner: Pubkey, oracle: Option<u64>, minPrice: u64, now: i64, e: int, r: int, x: External)
    requires Conserved(s, x) && NavPrice(s, LiveShares(s), e)
    requires owner in s.redeems && RedeemWorth(s, s.redeems[owner].sharesLocked, oracle, r)
    ensures var q := s.redeems[owner];
            FulfillRedeem(s, caller, owner, oracle, minPrice, now).Ok? <==>
              && q.status.Pending? && MayFulfil(s, caller, ApprovalOf(s, owner, caller).canFulfillRedeem, q.requestedAt, now)
              && Accepted(s, LiveShares(s), oracle, e) && 0 < r <= s.totalAssets && NotBelow(r, q.sharesLocked, minPrice)
    ensures FulfillRedeem(s, caller, owner, oracle, minPrice, now).Ok? ==>
              FulfillRedeem(s, caller, owner, oracle, minPrice, now).value.redeems[owner].assetsClaimable == r
  {
    LiveWithin(s, x);
    if s.redeems[owner].status.Pending? { PendingUnclaimable(s, owner, x); }
    QuoteRedeemIff(s, caller, owner, oracle, minPrice, now);
    RedeemAssetsIff(s, s.redeems[owner].sharesLocked, oracle, e, r, x);
    if QuoteRedeem(s, caller, owner, oracle, minPrice, now).Ok? {
      SettleEnabled(s, owner, r, now, x);
      if SettleRedeem(s, owner, r, now).Ok? { SettleSets(s, owner, r, now); }
    }
  }

  /** A fulfilment burns the escrowed shares and sets the assets aside for the one owner: it touches no
      holder, and no other request or claimable account. */
  lemma FulfillRedeemPays(s: State, caller: Pubkey, owner: Pubkey, oracle: Option<u64>, minPrice: u64, now: i64)
    requires FulfillRedeem(s, caller, owner, oracle, minPrice, now).Ok?
    ensures var t := FulfillRedeem(s, caller, owner, oracle, minPrice, now).value;
            && owner in s.redeems && owner in t.redeems && s.redeems[owner].status.Pending?
            && var b, r := s.redeems[owner].sharesLocked, t.redeems[owner].assetsClaimable;
            && t.redeems[owner] == s.redeems[owner].(assetsClaimable := r, status := Fulfilled, fulfilledAt := now)
            && t.redeems - {owner} == s.redeems - {owner}
            && t.claimable == s.claimable[owner := r] && owner !in s.claimable
            && t.shareEscrow == s.shareEscrow - b && t.sharesSupply == s.sharesSupply - b
            && t.totalShares == s.totalShares - b && t.totalPendingRedeems == s.totalPendingRedeems - b
            && t.assetVault == s.assetVault - r && t.totalAssets == s.totalAssets - r
            && t.holdings == s.holdings && t.deposits == s.deposits && t.approvals == s.approvals && t.config == s.config
            && t.totalPendingDeposits == s.totalPendingDeposits && t.totalFulfilledDeposits == s.totalFulfilledDeposits
            && t.programOwned == s.programOwned
  {}

  /** A claim empties and closes the one claimable account and closes the one request. */
  lemma ClaimRedeemPays(s: State, claimant: Pubkey, owner: Pubkey)
    requires ClaimRedeem(s, claimant, owner).Ok?
    ensures var t := ClaimRedeem(s, claimant, owner).value;
            && owner in s.redeems && owner in s.claimable && s.claimable[owner] == s.redeems[owner].assetsClaimable
            && t == s.(claimable := s.claimable - {owner}, redeems := s.redeems - {owner})
  {}

  // ---------------------------------------------------------------- holders, over whole runs

  /** What a step adds to the shares of `u`: claimed for it, given back or sent to it, less what it escrowed,
      sent and burned. */
  function Gained(s: State, op: Op, u: Pubkey): int {
    match op
    case ClaimDepositOp(_, owner) =>
      if owner in s.deposits && u == s.deposits[owner].receiver then s.deposits[owner].sharesClaimable else 0
    case RequestRedeemOp(user, shares, _, _) => if u == user then 0 - shares else 0
    case CancelRedeemOp(user) => if u == user && user in s.redeems then s.redeems[user].sharesLocked else 0
    case TransferSharesOp(from, to, amount) => (if u == to then amount else 0) - (if u == from then amount else 0)
    case DonateSharesOp(from, amount) => if u == from then 0 - amount else 0
    case BurnSharesOp(from, amount) => if u == from then 0 - amount else 0
    case _ => 0
  }

  function RunGained(s: State, ops: seq<Op>, u: Pubkey): int
    requires Run(s, ops).Ok?
    decreases |ops|
  {
    if ops == [] then 0 else Gained(s, ops[0], u) + RunGained(Step(s, ops[0]).value, ops[1..], u)
  }

  lemma DepositStepHoldings(s: State, op: Op, u: Pubkey)
    requires DepositSide(op) && DepositStep(s, op).Ok?
    ensures Get(DepositStep(s, op).value.holdings, u) == Get(s.holdings, u) + Gained(s, op, u)
  {
    if op.ClaimDepositOp? { ClaimDepositPays(s, op.caller, op.owner, u); }
  }

  lemma RedeemStepHoldings(s: State, op: Op, u: Pubkey)
    requires RedeemSide(op) && RedeemStep(s, op).Ok?
    ensures Get(RedeemStep(s, op).value.holdings, u) == Get(s.holdings, u) + Gained(s, op, u)
  {
    if op.FulfillRedeemOp? { FulfillRedeemPays(s, op.caller, op.owner, op.oraclePrice, op.minPrice, op.now); }
  }

  lemma OtherStepHoldings(s: State, op: Op, u: Pubkey)
    requires !DepositSide(op) && !RedeemSide(op) && OtherStep(s, op).Ok?
    ensures Get(OtherStep(s, op).value.holdings, u) == Get(s.holdings, u) + Gained(s, op, u)
  {}

  /** Over any run an account holds what was claimed for it, given back and sent to it, less what it
      escrowed, sent and burned. */
  lemma {:induction false} RunHoldings(s: State, ops: seq<Op>, u: Pubkey)
    requires Run(s, ops).Ok?
    ensures Get(Run(s, ops).value.holdings, u) == Get(s.holdings, u) + RunGained(s, ops, u)
    decreases |ops|
  {
    if ops != [] {
      if DepositSide(ops[0]) {
        DepositStepHoldings(s, ops[0], u);
      } else if RedeemSide(ops[0]) {
        RedeemStepHoldings(s, ops[0], u);
      } else {
        OtherStepHoldings(s, ops[0], u);
      }
      RunHoldings(Step(s, ops[0]).value, ops[1..], u);
    }
  }

  // ---------------------------------------------------------------- reasons

  /** What an error of a fulfilment tells about a request made at `requestedAt`. */
  predicate Tells(s: State, caller: Pubkey, known: bool, pending: bool, approved: bool, requestedAt: i64, now: i64, e: VaultError) {
    match e
    case VaultPaused => s.config.paused
    case AccountMissing => !known
    case RequestNotPending => !pending
    case OperatorNotApproved => caller != s.config.operator && !approved
    case RequestExpired => s.config.cancelAfter > 0 && requestedAt + s.config.cancelAfter <= now
    case _ => !s.config.paused && known && pending && (caller == s.config.operator || approved)
  }

  predicate AboutPrice(e: VaultError) {
    e == ZeroAmount || e == MathOverflow || e == DivisionByZero || e == OracleDeviationExceeded
  }

  lemma PriceErrors(s: State, amount: u64, live: u64, oracle: Option<u64>)
    ensures DepositShares(s, amount, oracle).Err? ==> AboutPrice(DepositShares(s, amount, oracle).error)
    ensures RedeemAssets(s, amount, live, oracle).Err? ==> AboutPrice(RedeemAssets(s, amount, live, oracle).error)
  {}

  /** Why a price is refused: an oracle's zero, an oracle's outside the bound, or a quantity beyond 64 bits. */
  predicate Refused(s: State, shares: int, oracle: Option<u64>, e: int, q: int, error: VaultError) {
    match error
    case ZeroAmount => oracle == Some(0)
    case OracleDeviationExceeded => oracle.Some? && oracle.value > 0 && NavFits(s, shares, e) && !Within(s, oracle.value, e)
    case MathOverflow =>
      if oracle.None? then !Priceable(s, s.totalAssets, shares) || U64_MAX < q
      else oracle.value > 0 && (!NavFits(s, shares, e) || (Within(s, oracle.value, e) && U64_MAX < q))
    case _ => false
  }

  lemma DepositSharesErrors(s: State, assets: u64, oracle: Option<u64>, e: int, n: int, x: External)
    requires Conserved(s, x) && NavPrice(s, s.totalShares, e) && DepositWorth(s, assets, oracle, n)
    requires DepositShares(s, assets, oracle).Err?
    ensures Refused(s, s.totalShares, oracle, e, n, DepositShares(s, assets, oracle).error)
  {
    if oracle.Some? {
      OracleSharesErrors(s, assets, oracle.value, e, n, x);
    } else if Priceable(s, s.totalAssets, s.totalShares) {
      QuotientIs(assets, s.totalShares + VirtualOf(s), s.totalAssets + 1, n);
    }
  }

  lemma OracleSharesErrors(s: State, assets: u64, price: u64, e: int, n: int, x: External)
    requires Conserved(s, x) && NavPrice(s, s.totalShares, e) && DepositWorth(s, assets, Some(price), n)
    requires DepositShares(s, assets, Some(price)).Err?
    ensures Refused(s, s.totalShares, Some(price), e, n, DepositShares(s, assets, Some(price)).error)
  {
    ExpectedIff(s, s.totalShares, e, x);
    if price > 0 {
      QuotientIs(assets, PRICE_SCALE, price, n);
      if NavFits(s, s.totalShares, e) { DeviationIff(price, e, s.config.maxDeviationBps); }
    }
  }

  lemma RedeemAssetsErrors(s: State, shares: u64, oracle: Option<u64>, e: int, r: int, x: External)
    requires Conserved(s, x) && 0 <= LiveShares(s) <= s.totalShares
    requires NavPrice(s, LiveShares(s), e) && RedeemWorth(s, shares, oracle, r)
    requires RedeemAssets(s, shares, LiveShares(s), oracle).Err?
    ensures Refused(s, LiveShares(s), oracle, e, r, RedeemAssets(s, shares, LiveShares(s), oracle).error)
  {
    match oracle
    case None =>
      if Priceable(s, s.totalAssets, LiveShares(s)) {
        ToAssetsIs(shares, s.totalAssets, LiveShares(s), s.config.decimalsOffset, r);
      }
    case Some(price) =>
      ExpectedIff(s, LiveShares(s), e, x);
      QuotientIs(shares, price, PRICE_SCALE, r);
      if price > 0 && NavFits(s, LiveShares(s), e) { DeviationIff(price, e, s.config.maxDeviationBps); }
  }

  /** Past the guards, a deposit's fulfilment is refused for its price, for granting no share, or for costing more
      a share than the operator allows. */
  lemma FulfillDepositRefused(s: State, caller: Pubkey, owner: Pubkey, oracle: Option<u64>, maxPrice: u64, now: i64, e: int, n: int, x: External)
    requires Conserved(s, x) && NavPrice(s, s.totalShares, e)
    requires owner in s.deposits && DepositWorth(s, s.deposits[owner].assetsLocked, oracle, n)
    requires var r := s.deposits[owner];
             r.status.Pending? && MayFulfil(s, caller, ApprovalOf(s, owner, caller).canFulfillDeposit, r.requestedAt, now)
    requires FulfillDeposit(s, caller, owner, oracle, maxPrice, now).Err?
    ensures var error, d := FulfillDeposit(s, caller, owner, oracle, maxPrice, now).error, s.deposits[owner].assetsLocked;
            if Accepted(s, s.totalShares, oracle, e) && n <= U64_MAX
            then if n <= 0 then error == ZeroAmount
                 else if (U64_MAX + 1) * n <= d * PRICE_SCALE then error == MathOverflow
                 else error == SlippageExceeded && (maxPrice + 1) * n <= d * PRICE_SCALE
            else Refused(s, s.totalShares, oracle, e, n, error)
  {
    var d := s.deposits[owner].assetsLocked;
    DepositSharesIff(s, d, oracle, e, n, x);
    if DepositShares(s, d, oracle).Err? {
      DepositSharesErrors(s, d, oracle, e, n, x);
    } else {
      AcceptDepositSucceeds(s, owner, n, now, x);
      if n > 0 { CostIs(d, n, maxPrice); }
    }
  }

  lemma CostIs(d: u64, n: u64, maxPrice: u64)
    requires n > 0
    ensures var cost := MulDiv(d, PRICE_SCALE, n, Floor);
            && (cost.Err? <==> (U64_MAX + 1) * n <= d * PRICE_SCALE) && (cost.Err? ==> cost.error == MathOverflow)
            && (cost.Ok? ==> (maxPrice < cost.value <==> (maxPrice + 1) * n <= d * PRICE_SCALE))
  {
    ProductNonNegative(d, PRICE_SCALE);
    MulDivWithin(d, PRICE_SCALE, n, Floor, 0, U64_MAX);
    MulDivWithin(d, PRICE_SCALE, n, Floor, 0, maxPrice);
  }

  lemma SettleErrors(s: State, owner: Pubkey, assets: u64, now: i64, x: External)
    requires Conserved(s, x) && owner in s.redeems && s.redeems[owner].status.Pending? && SettleRedeem(s, owner, assets, now).Err?
    ensures s.totalAssets < assets
    ensures SettleRedeem(s, owner, assets, now).error == if s.totalAssets + x.assetsDonated < assets then InsufficientLiquidity else MathOverflow
  {
    RedeemsStep(s.redeems, owner, s.redeems[owner]);
  }

  /** The checks of a redeem past the guards, on the assets `r` it would pay. */
  lemma QuoteRedeemErrors(s: State, caller: Pubkey, owner: Pubkey, oracle: Option<u64>, minPrice: u64, now: i64)
    requires owner in s.redeems && owner !in s.claimable && 0 <= LiveShares(s)
    requires var q := s.redeems[owner];
             q.status.Pending? && MayFulfil(s, caller, ApprovalOf(s, owner, caller).canFulfillRedeem, q.requestedAt, now)
    ensures var quote, b := QuoteRedeem(s, caller, owner, oracle, minPrice, now), s.redeems[owner].sharesLocked;
            var assets := RedeemAssets(s, b, LiveShares(s), oracle);
            if assets.Err? then quote == assets
            else if minPrice > 0 && b > 0 && assets.value * PRICE_SCALE < minPrice * b then quote == Err(SlippageExceeded)
            else if minPrice > 0 && b > 0 && (U64_MAX + 1) * b <= assets.value * PRICE_SCALE then quote == Err(MathOverflow)
            else if assets.value == 0 then quote == Err(ZeroAmount)
            else quote == assets
  {
    var b := s.redeems[owner].sharesLocked;
    var assets := RedeemAssets(s, b, LiveShares(s), oracle);
    if assets.Ok? && b > 0 && minPrice > 0 { PaidIs(assets.value, b, minPrice); }
  }

  /** Past the guards, a redeem's fulfilment is refused for its price, for paying less a share than the operator
      allows, for paying nothing, or for want of assets that are counted or at least held. */
  lemma FulfillRedeemRefused(s: State, caller: Pubkey, owner: Pubkey, oracle: Option<u64>, minPrice: u64, now: i64, e: int, r: int, x: External)
    requires Conserved(s, x) && NavPrice(s, LiveShares(s), e)
    requires owner in s.redeems && RedeemWorth(s, s.redeems[owner].sharesLocked, oracle, r)
    requires var q := s.redeems[owner];
             q.status.Pending? && MayFulfil(s, caller, ApprovalOf(s, owner, caller).canFulfillRedeem, q.requestedAt, now)
    requires FulfillRedeem(s, caller, owner, oracle, minPrice, now).Err?
    ensures var error, b := FulfillRedeem(s, caller, owner, oracle, minPrice, now).error, s.redeems[owner].sharesLocked;
            if Accepted(s, LiveShares(s), oracle, e) && r <= U64_MAX
            then if minPrice > 0 && b > 0 && r * PRICE_SCALE < minPrice * b then error == SlippageExceeded
                 else if minPrice > 0 && b > 0 && (U64_MAX + 1) * b <= r * PRICE_SCALE then error == MathOverflow
                 else if r <= 0 then error == ZeroAmount
                 else s.totalAssets < r && error == if s.totalAssets + x.assetsDonated < r then InsufficientLiquidity else MathOverflow
            else Refused(s, LiveShares(s), oracle, e, r, error)
  {
    var b := s.redeems[owner].sharesLocked;
    LiveWithin(s, x);
    PendingUnclaimable(s, owner, x);
    RedeemAssetsIff(s, b, oracle, e, r, x);
    QuoteRedeemErrors(s, caller, owner, oracle, minPrice, now);
    if RedeemAssets(s, b, LiveShares(s), oracle).Err? {
      RedeemAssetsErrors(s, b, oracle, e, r, x);
    } else if QuoteRedeem(s, caller, owner, oracle, minPrice, now).Ok? {
      SettleErrors(s, owner, r, now, x);
    }
  }

  lemma PaidIs(r: u64, b: u64, minPrice: u64)
    requires b > 0
    ensures var paid := MulDiv(r, PRICE_SCALE, b, Floor);
            && (paid.Err? <==> (U64_MAX + 1) * b <= r * PRICE_SCALE) && (paid.Err? ==> paid.error == MathOverflow)
            && (paid.Ok? ==> (paid.value < minPrice <==> r * PRICE_SCALE < minPrice * b))
            && (r * PRICE_SCALE < minPrice * b ==> paid.Ok?)
  {
    ProductNonNegative(r, PRICE_SCALE);
    MulDivWithin(r, PRICE_SCALE, b, Floor, 0, U64_MAX);
    MulDivWithin(r, PRICE_SCALE, b, Floor, minPrice, U64_MAX);
    MulMono(minPrice, U64_MAX, b);
  }

  /** A refused fulfilment names what it was refused for; any other error than these is about its price
      or the vault's assets, and comes only after who, what and when have been found in order. */
  lemma FulfillDepositTells(s: State, caller: Pubkey, owner: Pubkey, oracle: Option<u64>, maxPrice: u64, now: i64)
    requires FulfillDeposit(s, caller, owner, oracle, maxPrice, now).Err?
    ensures var known := owner in s.deposits;
            Tells(s, caller, known, known && s.deposits[owner].status.Pending?, ApprovalOf(s, owner, caller).canFulfillDeposit,
                  if known then s.deposits[owner].requestedAt else 0, now, FulfillDeposit(s, caller, owner, oracle, maxPrice, now).error)
  {
    if owner in s.deposits {
      PriceErrors(s, s.deposits[owner].assetsLocked, 0, oracle);
    }
  }

  lemma QuoteRedeemTells(s: State, caller: Pubkey, owner: Pubkey, oracle: Option<u64>, minPrice: u64, now: i64)
    requires QuoteRedeem(s, caller, owner, oracle, minPrice, now).Err? && 0 <= LiveShares(s)
    requires owner in s.redeems && s.redeems[owner].status.Pending? ==> owner !in s.claimable
    ensures var known := owner in s.redeems;
            Tells(s, caller, known, known && s.redeems[owner].status.Pending?, ApprovalOf(s, owner, caller).canFulfillRedeem,
                  if known then s.redeems[owner].requestedAt else 0, now, QuoteRedeem(s, caller, owner, oracle, minPrice, now).error)
  {
    if owner in s.redeems {
      PriceErrors(s, s.redeems[owner].sharesLocked, LiveShares(s), oracle);
    }
  }

  lemma FulfillRedeemTells(s: State, caller: Pubkey, owner: Pubkey, oracle: Option<u64>, minPrice: u64, now: i64, x: External)
    requires Conserved(s, x) && FulfillRedeem(s, caller, owner, oracle, minPrice, now).Err?
    ensures var known := owner in s.redeems;
            Tells(s, caller, known, known && s.redeems[owner].status.Pending?, ApprovalOf(s, owner, caller).canFulfillRedeem,
                  if known then s.redeems[owner].requestedAt else 0, now, FulfillRedeem(s, caller, owner, oracle, minPrice, now).error)
  {
    LiveWithin(s, x);
    if owner in s.redeems && s.redeems[owner].status.Pending? { PendingUnclaimable(s, owner, x); }
    var quote := QuoteRedeem(s, caller, owner, oracle, minPrice, now);
    if quote.Err? {
      QuoteRedeemTells(s, caller, owner, oracle, minPrice, now);
    } else {
      SettleErrors(s, owner, quote.value, now, x);
    }
  }

  // ---------------------------------------------------------------- administration

  /** A paused vault takes no request, fulfils none and cancels none. */
  lemma PausedRefuses(s: State, op: Op)
    requires s.config.paused
    requires (DepositSide(op) && !op.ClaimDepositOp?) || (RedeemSide(op) && !op.ClaimRedeemOp?)
    ensures Step(s, op) == Err(VaultPaused)
  {}

  predicate Permitted(c: Config, setting: Setting) {
    match setting
    case Pause => !c.paused
    case Unpause => c.paused
    case Operator(operator) => operator != DEFAULT_PUBKEY
    case MaxDeviationBps(bps) => 0 < bps <= 10_000
    case CancelAfter(seconds) => seconds >= 0
  }

  /** Only the authority configures the vault, one setting at a time. */
  lemma ConfigureIff(s: State, caller: Pubkey, setting: Setting)
    ensures Configure(s, caller, setting).Ok? <==> caller == s.config.authority && Permitted(s.config, setting)
    ensures Configure(s, caller, setting).Ok? ==>
              var t := Configure(s, caller, setting).value; var c := t.config;
              && t == s.(config := c) && c.authority == s.config.authority && c.decimalsOffset == s.config.decimalsOffset
              && c.paused == (if setting.Pause? then true else if setting.Unpause? then false else s.config.paused)
              && c.operator == (if setting.Operator? then setting.operator else s.config.operator)
              && c.maxDeviationBps == (if setting.MaxDeviationBps? then setting.bps else s.config.maxDeviationBps)
              && c.cancelAfter == (if setting.CancelAfter? then setting.seconds else s.config.cancelAfter)
  {}

  /** Whom an owner approves for what changes by that owner's word only: every other pair keeps its approval. */
  lemma DelegateIff(s: State, owner: Pubkey, operator: Pubkey, change: Delegation, o: Pubkey, c: Pubkey)
    ensures Delegate(s, owner, operator, change).Ok? <==> (change.Approve? <==> (owner, operator) !in s.approvals)
    ensures Delegate(s, owner, operator, change).Ok? ==>
              var t := Delegate(s, owner, operator, change).value;
              && t == s.(approvals := t.approvals)
              && ApprovalOf(t, o, c) == if o != owner || c != operator then ApprovalOf(s, o, c)
                                        else if change.Revoke? then NO_APPROVAL else change.approval
  {}
}
