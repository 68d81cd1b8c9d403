/** The public vaults as their instructions update them, in place. SVS-1 and SVS-2 share every
    instruction but `sync`; they differ in the total they price at and keep. Every method is
    proved to do what the transition of the same name in `PublicLedger` does, or to leave
    everything as it was. */
module PublicVault {
  import opened Common
  import opened Conversion
  import opened PublicLedger
  import PublicPricing
  import Ledger = PublicLedger

  class Vault {
    const model: Model
    const authority: Pubkey
    const decimalsOffset: u8
    var paused: bool
    var recorded: u64
    var balance: u64
    var supply: u64
    var holdings: map<Pubkey, u64>

    function Accounts(): State
      reads this
    {
      State(Config(model, authority, decimalsOffset, paused), recorded, balance, supply, holdings)
    }

    /** The transaction committed as `spec` says, reporting the assets and shares
        exchanged, or was refused for its reason and changed nothing. */
    twostate predicate Outcome(spec: Result<Commit>, new r: Result<(u64, u64)>)
      reads this
    {
      match spec
      case Ok(c) => r == Ok((c.assets, c.shares)) && Accounts() == c.state
      case Err(e) => r == Err(e) && Accounts() == old(Accounts())
    }

    /** Whatever a committed transaction did, the share price did not fall. */
    twostate lemma OutcomeKeepsPrice(op: Op, r: Result<(u64, u64)>)
      requires Outcome(Step(old(Accounts()), op), r) && r.Ok?
      requires PublicPricing.Valid(old(Accounts()))
      ensures PublicPricing.Valid(Accounts()) && PublicPricing.PriceKept(old(Accounts()), Accounts())
    {
      PublicPricing.StepKeeps(old(Accounts()), op);
    }

    constructor (model: Model, authority: Pubkey, decimalsOffset: u8)
      ensures Accounts() == Initial(model, authority, decimalsOffset)
    {
      this.model, this.authority, this.decimalsOffset := model, authority, decimalsOffset;
      paused, recorded, balance, supply, holdings := false, 0, 0, 0, map[];
    }

    function TotalAssets(): u64
      reads this
    {
      if model.Live? then balance else recorded
    }

    /** Takes `assets` in and mints `shares` for them. */
    method Issue(user: Pubkey, assets: u64, shares: u64) returns (r: Result<()>)
      modifies this
      ensures match Enter(old(Accounts()), user, assets, shares)
              case Ok(c) => r == Ok(()) && Accounts() == c.state
              case Err(e) => r == Err(e) && Accounts() == old(Accounts())
    {
      var newBalance :- TokenAdd(balance, assets);
      var newSupply :- TokenAdd(supply, shares);
      var held :- TokenAdd(Get(holdings, user), shares);
      if model.Stored? {
        recorded :- CheckedAdd(recorded, assets);
      }
      balance := newBalance;
      supply := newSupply;
      holdings := holdings[user := held];
      return Ok(());
    }

    /** Burns `shares` and pays `assets` out for them. */
    method Return(user: Pubkey, assets: u64, shares: u64) returns (r: Result<()>)
      modifies this
      ensures match Leave(old(Accounts()), user, assets, shares)
              case Ok(c) => r == Ok(()) && Accounts() == c.state
              case Err(e) => r == Err(e) && Accounts() == old(Accounts())
    {
      var held :- TokenSub(Get(holdings, user), shares);
      var newSupply :- TokenSub(supply, shares);
      var newBalance :- TokenSub(balance, assets);
      if model.Stored? {
        recorded :- CheckedSub(recorded, assets);
      }
      holdings := holdings[user := held];
      supply := newSupply;
      balance := newBalance;
      return Ok(());
    }

    method Deposit(user: Pubkey, assets: u64, minShares: u64) returns (r: Result<(u64, u64)>)
      modifies this
      ensures Outcome(Ledger.Deposit(old(Accounts()), user, assets, minShares), r)
    {
      if paused {
        return Err(VaultPaused);
      }
      :- Require(assets > 0, ZeroAmount);
      :- Require(assets >= MIN_DEPOSIT_AMOUNT, DepositTooSmall);
      var shares :- ConvertToShares(assets, TotalAssets(), supply, decimalsOffset, Floor);
      :- Require(shares >= minShares, SlippageExceeded);
      var _ :- Issue(user, assets, shares);
      return Ok((assets, shares));
    }

    method Mint(user: Pubkey, shares: u64, maxAssets: u64) returns (r: Result<(u64, u64)>)
      modifies this
      ensures Outcome(Ledger.Mint(old(Accounts()), user, shares, maxAssets), r)
    {
      if paused {
        return Err(VaultPaused);
      }
      :- Require(shares > 0, ZeroAmount);
      var assets :- ConvertToAssets(shares, TotalAssets(), supply, decimalsOffset, Ceiling);
      :- Require(assets >= MIN_DEPOSIT_AMOUNT, DepositTooSmall);
      :- Require(assets <= maxAssets, SlippageExceeded);
      var _ :- Issue(user, assets, shares);
      return Ok((assets, shares));
    }

    method Withdraw(user: Pubkey, assets: u64, maxShares: u64) returns (r: Result<(u64, u64)>)
      modifies this
      ensures Outcome(Ledger.Withdraw(old(Accounts()), user, assets, maxShares), r)
    {
      if paused {
        return Err(VaultPaused);
      }
      :- Require(assets > 0, ZeroAmount);
      :- Require(assets <= TotalAssets(), InsufficientAssets);
      var shares :- ConvertToShares(assets, TotalAssets(), supply, decimalsOffset, Ceiling);
      :- Require(shares <= maxShares, SlippageExceeded);
      :- Require(shares <= Get(holdings, user), InsufficientShares);
      var _ :- Return(user, assets, shares);
      return Ok((assets, shares));
    }

    method Redeem(user: Pubkey, shares: u64, minAssets: u64) returns (r: Result<(u64, u64)>)
      modifies this
      ensures Outcome(Ledger.Redeem(old(Accounts()), user, shares, minAssets), r)
    {
      if paused {
        return Err(VaultPaused);
      }
      :- Require(shares > 0, ZeroAmount);
      :- Require(shares <= Get(holdings, user), InsufficientShares);
      var assets :- ConvertToAssets(shares, TotalAssets(), supply, decimalsOffset, Floor);
      :- Require(assets >= minAssets, SlippageExceeded);
      :- Require(assets <= TotalAssets(), InsufficientAssets);
      var _ :- Return(user, assets, shares);
      return Ok((assets, shares));
    }

    /** SVS-2 only. */
    method Sync(caller: Pubkey) returns (r: Result<(u64, u64)>)
      modifies this`recorded
      ensures Outcome(Ledger.Sync(old(Accounts()), caller), r)
      ensures r.Ok? ==> TotalAssets() == balance
    {
      if !model.Stored? {
        return Err(InvalidParameter);
      }
      :- Require(caller == authority, Unauthorized);
      recorded := balance;
      return Ok((0, 0));
    }

    method SetPaused(caller: Pubkey, pause: bool) returns (r: Result<(u64, u64)>)
      modifies this`paused
      ensures Outcome(Ledger.SetPaused(old(Accounts()), caller, pause), r)
    {
      if caller != authority {
        return Err(Unauthorized);
      }
      :- Require(paused != pause, if pause then VaultPaused else VaultNotPaused);
      paused := pause;
      return Ok((0, 0));
    }
  }
}
