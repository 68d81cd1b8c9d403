/** The SVS-10 vault as its instructions update it: the vault account, the token accounts it
    controls and the request accounts, in place. Every method is proved to do what the
    transition of the same name in `AsyncLedger` does, or to leave everything as it was.
 */
module AsyncVault {
  import opened Common
  import opened Conversion
  import AsyncConservation
  import Ledger = AsyncLedger
  import opened AsyncLedger

  class Vault {
    var config: Config
    var totalAssets: u64
    var totalShares: u64
    var totalPendingDeposits: u64
    var totalFulfilledDeposits: u64
    var totalPendingRedeems: u64
    var assetVault: u64
    var sharesSupply: u64
    var shareEscrow: u64
    var holdings: map<Pubkey, u64>
    var claimable: map<Pubkey, u64>
    var deposits: map<Pubkey, DepositRequest>
    var redeems: map<Pubkey, RedeemRequest>
    var approvals: map<(Pubkey, Pubkey), Approval>
    var programOwned: set<Pubkey>

    function Accounts(): State
      reads this
    {
      State(config, totalAssets, totalShares, totalPendingDeposits, totalFulfilledDeposits, totalPendingRedeems,
            assetVault, sharesSupply, shareEscrow, holdings, claimable, deposits, redeems, approvals, programOwned)
    }

    /** The transaction committed to the state `spec` names, or was refused for its reason and
        changed nothing. */
    twostate predicate Outcome(spec: Result<State>, new r: Result<()>)
      reads this
    {
      && (spec.Ok? ==> r == Ok(()) && Accounts() == spec.value)
      && (spec.Err? ==> r == Err(spec.error) && Accounts() == old(Accounts()))
    }

    /** Whatever a committed transaction did, the vault is conserved if it was before. */
    twostate lemma OutcomeConserved(op: Op, r: Result<()>, x: AsyncConservation.External)
      requires Outcome(Step(old(Accounts()), op), r) && r.Ok?
      requires AsyncConservation.Conserved(old(Accounts()), x)
      ensures AsyncConservation.Conserved(Accounts(), AsyncConservation.Plus(x, AsyncConservation.Effect(op)))
    {
      AsyncConservation.StepConserved(old(Accounts()), op, x);
    }

    constructor (authority: Pubkey, operator: Pubkey, decimalsOffset: u8)
      ensures Accounts() == Initial(authority, operator, decimalsOffset)
    {
      config := Config(authority, operator, decimalsOffset, false, 500, 0);
      totalAssets, totalShares := 0, 0;
      totalPendingDeposits, totalFulfilledDeposits, totalPendingRedeems := 0, 0, 0;
      assetVault, sharesSupply, shareEscrow := 0, 0, 0;
      holdings, claimable := map[], map[];
      deposits, redeems, approvals := map[], map[], map[];
      programOwned := {};
    }

    // -------------------------------------------------------------- deposits

    method RequestDeposit(user: Pubkey, assets: u64, receiver: Pubkey, now: i64) returns (r: Result<()>)
      modifies this
      ensures Outcome(Ledger.RequestDeposit(old(Accounts()), user, assets, receiver, now), r)
    {
      if config.paused {
        return Err(VaultPaused);
      }
      :- Require(user !in deposits, AccountExists);
      :- Require(assets > 0, ZeroAmount);
      :- Require(assets >= MIN_DEPOSIT_AMOUNT, DepositTooSmall);
      var balance :- TokenAdd(assetVault, assets);
      var pending :- CheckedAdd(totalPendingDeposits, assets);
      assetVault := balance;
      deposits := deposits[user := DepositRequest(receiver, assets, 0, Pending, now, 0)];
      totalPendingDeposits := pending;
      return Ok(());
    }

    /** The shares a fulfilment grants, or why it is refused. */
    method PriceDeposit(caller: Pubkey, owner: Pubkey, oraclePrice: Option<u64>, maxPrice: u64, now: i64) returns (r: Result<u64>)
      ensures r == QuoteDeposit(Accounts(), caller, owner, oraclePrice, maxPrice, now)
      ensures r.Ok? ==> owner in deposits
    {
      if config.paused {
        return Err(VaultPaused);
      }
      :- Require(owner in deposits, AccountMissing);
      var request := deposits[owner];
      :- Require(request.status.Pending?, RequestNotPending);
      if caller != config.operator {
        :- Require(ApprovalOf(Accounts(), owner, caller).canFulfillDeposit, OperatorNotApproved);
      }
      :- CheckDeadline(config.cancelAfter, request.requestedAt, now);
      var shares :- DepositShares(Accounts(), request.assetsLocked, oraclePrice);
      if maxPrice > 0 && shares > 0 {
        var price :- MulDiv(request.assetsLocked, PRICE_SCALE, shares, Floor);
        :- Require(price <= maxPrice, SlippageExceeded);
      }
      :- Require(shares > 0, ZeroAmount);
      return Ok(shares);
    }

    method FulfillDeposit(caller: Pubkey, owner: Pubkey, oraclePrice: Option<u64>, maxPrice: u64, now: i64) returns (r: Result<()>)
      modifies this
      ensures Outcome(Ledger.FulfillDeposit(old(Accounts()), caller, owner, oraclePrice, maxPrice, now), r)
    {
      var shares :- PriceDeposit(caller, owner, oraclePrice, maxPrice, now);
      var request := deposits[owner];
      var pending :- CheckedSub(totalPendingDeposits, request.assetsLocked);
      var fulfilled :- CheckedAdd(totalFulfilledDeposits, request.assetsLocked);
      deposits := deposits[owner := request.(sharesClaimable := shares, status := Fulfilled, fulfilledAt := now)];
      totalPendingDeposits := pending;
      totalFulfilledDeposits := fulfilled;
      return Ok(());
    }

    method ClaimDeposit(claimant: Pubkey, owner: Pubkey) returns (r: Result<()>)
      modifies this
      ensures Outcome(Ledger.ClaimDeposit(old(Accounts()), claimant, owner), r)
    {
      if owner !in deposits {
        return Err(AccountMissing);
      }
      var request := deposits[owner];
      :- Require(owner !in programOwned, AccountNotSystemOwned);
      :- Require(request.receiver !in programOwned, AccountNotSystemOwned);
      :- Require(request.status.Fulfilled?, RequestNotFulfilled);
      :- Require(claimant == request.receiver || ApprovalOf(Accounts(), owner, claimant).canClaim, OperatorNotApproved);
      r := IssueShares(owner);
    }

    method IssueShares(owner: Pubkey) returns (r: Result<()>)
      requires owner in deposits
      modifies this
      ensures Outcome(Ledger.IssueShares(old(Accounts()), owner), r)
    {
      var request := deposits[owner];
      var supply :- TokenAdd(sharesSupply, request.sharesClaimable);
      var held :- TokenAdd(Get(holdings, request.receiver), request.sharesClaimable);
      var fulfilled :- CheckedSub(totalFulfilledDeposits, request.assetsLocked);
      var assets :- CheckedAdd(totalAssets, request.assetsLocked);
      var shares :- CheckedAdd(totalShares, request.sharesClaimable);
      sharesSupply := supply;
      holdings := holdings[request.receiver := held];
      totalFulfilledDeposits := fulfilled;
      totalAssets := assets;
      totalShares := shares;
      deposits := deposits - {owner};
      return Ok(());
    }

    method CancelDeposit(user: Pubkey, now: i64) returns (r: Result<()>)
      modifies this
      ensures Outcome(Ledger.CancelDeposit(old(Accounts()), user, now), r)
    {
      if config.paused {
        return Err(VaultPaused);
      }
      :- Require(user in deposits, AccountMissing);
      var request := deposits[user];
      :- Require(request.status.Pending?, RequestNotPending);
      :- Require(config.cancelAfter > 0 ==> now > request.requestedAt, RequestNotPending);
      var balance :- TokenSub(assetVault, request.assetsLocked);
      var pending :- CheckedSub(totalPendingDeposits, request.assetsLocked);
      assetVault := balance;
      totalPendingDeposits := pending;
      deposits := deposits - {user};
      return Ok(());
    }

    // -------------------------------------------------------------- redeems

    method RequestRedeem(user: Pubkey, shares: u64, receiver: Pubkey, now: i64) returns (r: Result<()>)
      modifies this
      ensures Outcome(Ledger.RequestRedeem(old(Accounts()), user, shares, receiver, now), r)
    {
      if config.paused {
        return Err(VaultPaused);
      }
      :- Require(user !in redeems, AccountExists);
      :- Require(shares > 0, ZeroAmount);
      var held :- TokenSub(Get(holdings, user), shares);
      var escrow :- TokenAdd(shareEscrow, shares);
      var pending :- CheckedAdd(totalPendingRedeems, shares);
      holdings := holdings[user := held];
      shareEscrow := escrow;
      redeems := redeems[user := RedeemRequest(receiver, shares, 0, Pending, now, 0)];
      totalPendingRedeems := pending;
      return Ok(());
    }

    /** The assets a fulfilment pays, or why it is refused. */
    method PriceRedeem(caller: Pubkey, owner: Pubkey, oraclePrice: Option<u64>, minPrice: u64, now: i64) returns (r: Result<u64>)
      ensures r == QuoteRedeem(Accounts(), caller, owner, oraclePrice, minPrice, now)
      ensures r.Ok? ==> owner in redeems
    {
      if config.paused {
        return Err(VaultPaused);
      }
      :- Require(owner in redeems, AccountMissing);
      var request := redeems[owner];
      :- Require(request.status.Pending?, RequestNotPending);
      :- Require(owner !in claimable, AccountExists);
      var live :- CheckedSub(sharesSupply, totalPendingRedeems);
      if caller != config.operator {
        :- Require(ApprovalOf(Accounts(), owner, caller).canFulfillRedeem, OperatorNotApproved);
      }
      :- CheckDeadline(config.cancelAfter, request.requestedAt, now);
      var assets :- RedeemAssets(Accounts(), request.sharesLocked, live, oraclePrice);
      if minPrice > 0 && request.sharesLocked > 0 {
        var price :- MulDiv(assets, PRICE_SCALE, request.sharesLocked, Floor);
        :- Require(price >= minPrice, SlippageExceeded);
      }
      :- Require(assets > 0, ZeroAmount);
      return Ok(assets);
    }

    method FulfillRedeem(caller: Pubkey, owner: Pubkey, oraclePrice: Option<u64>, minPrice: u64, now: i64) returns (r: Result<()>)
      modifies this
      ensures Outcome(Ledger.FulfillRedeem(old(Accounts()), caller, owner, oraclePrice, minPrice, now), r)
    {
      var assets :- PriceRedeem(caller, owner, oraclePrice, minPrice, now);
      r := Settle(owner, assets, now);
    }

    method Settle(owner: Pubkey, assets: u64, now: i64) returns (r: Result<()>)
      requires owner in redeems
      modifies this
      ensures Outcome(SettleRedeem(old(Accounts()), owner, assets, now), r)
    {
      ghost var spec := SettleRedeem(Accounts(), owner, assets, now);
      var request := redeems[owner];
      var unpending :- CheckedSub(assetVault, totalPendingDeposits);
      var available :- CheckedSub(unpending, totalFulfilledDeposits);
      :- Require(available >= assets, InsufficientLiquidity);
      var escrow :- TokenSub(shareEscrow, request.sharesLocked);
      var supply :- TokenSub(sharesSupply, request.sharesLocked);
      var balance := assetVault - assets;
      var total :- CheckedSub(totalAssets, assets);
      var shares :- CheckedSub(totalShares, request.sharesLocked);
      var pending :- CheckedSub(totalPendingRedeems, request.sharesLocked);
      shareEscrow, sharesSupply, assetVault := escrow, supply, balance;
      claimable := claimable[owner := assets];
      totalAssets, totalShares, totalPendingRedeems := total, shares, pending;
      redeems := redeems[owner := request.(assetsClaimable := assets, status := Fulfilled, fulfilledAt := now)];
      assert spec == Ok(Accounts());
      return Ok(());
    }

    method ClaimRedeem(claimant: Pubkey, owner: Pubkey) returns (r: Result<()>)
      modifies this
      ensures Outcome(Ledger.ClaimRedeem(old(Accounts()), claimant, owner), r)
    {
      if owner !in redeems {
        return Err(AccountMissing);
      }
      var request := redeems[owner];
      :- Require(owner !in programOwned, AccountNotSystemOwned);
      :- Require(owner in claimable, AccountMissing);
      :- Require(request.receiver !in programOwned, AccountNotSystemOwned);
      :- Require(request.status.Fulfilled?, RequestNotFulfilled);
      :- Require(claimant == request.receiver || ApprovalOf(Accounts(), owner, claimant).canClaim, OperatorNotApproved);
      var rest :- TokenSub(claimable[owner], request.assetsClaimable);
      :- Require(rest == 0, TokenError);
      claimable := claimable - {owner};
      redeems := redeems - {owner};
      return Ok(());
    }

    method CancelRedeem(user: Pubkey) returns (r: Result<()>)
      modifies this
      ensures Outcome(Ledger.CancelRedeem(old(Accounts()), user), r)
    {
      if config.paused {
        return Err(VaultPaused);
      }
      :- Require(user in redeems, AccountMissing);
      var request := redeems[user];
      :- Require(request.status.Pending?, RequestNotPending);
      var escrow :- TokenSub(shareEscrow, request.sharesLocked);
      var held :- TokenAdd(Get(holdings, user), request.sharesLocked);
      var pending :- CheckedSub(totalPendingRedeems, request.sharesLocked);
      shareEscrow := escrow;
      holdings := holdings[user := held];
      totalPendingRedeems := pending;
      redeems := redeems - {user};
      return Ok(());
    }

    // -------------------------------------------------------------- administration

    method Configure(caller: Pubkey, setting: Setting) returns (r: Result<()>)
      modifies this`config
      ensures Outcome(Ledger.Configure(old(Accounts()), caller, setting), r)
    {
      if caller != config.authority {
        return Err(Unauthorized);
      }
      config :- Set(config, setting);
      return Ok(());
    }

    method Delegate(owner: Pubkey, operator: Pubkey, change: Delegation) returns (r: Result<()>)
      modifies this`approvals
      ensures Outcome(Ledger.Delegate(old(Accounts()), owner, operator, change), r)
    {
      var key := (owner, operator);
      match change {
        case Approve(approval) =>
          :- Require(key !in approvals, AccountExists);
          approvals := approvals[key := approval];
        case Update(approval) =>
          :- Require(key in approvals, AccountMissing);
          approvals := approvals[key := approval];
        case Revoke =>
          :- Require(key in approvals, AccountMissing);
          approvals := approvals - {key};
      }
      return Ok(());
    }
  }
}
