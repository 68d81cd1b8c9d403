/** The streaming vault as its instructions update it, in place. A handler first takes a checkpoint
    and then checks the rest of its conditions; when one of them fails, the runtime discards what
    was written. Every instruction, run that way, does what the transition of the same name in
    `StreamLedger` does, or leaves everything as it was. */
module StreamVault {
  import opened Common
  import opened Conversion
  import opened StreamLedger
  import StreamAccrual
  import StreamRuns
  import Ledger = StreamLedger

  class Vault {
    const authority: Pubkey
    const decimalsOffset: u8
    var paused: bool
    var base: u64
    var streamAmount: u64
    var streamStart: i64
    var streamEnd: i64
    var streamDistributed: u64
    var lastCheckpoint: i64
    var balance: u64
    var supply: u64
    var holdings: map<Pubkey, u64>

    function Accounts(): State
      reads this
    {
      State(Config(authority, decimalsOffset, paused), base,
            Stream(streamAmount, streamStart, streamEnd, streamDistributed), lastCheckpoint, balance, supply, holdings)
    }

    /** The handler wrote what `spec` says, or failed for its reason with its writes to be discarded. */
    predicate Handled(spec: Result<Commit>, r: Result<(u64, u64)>)
      reads this
    {
      match spec
      case Ok(c) => r == Ok((c.assets, c.shares)) && Accounts() == c.state
      case Err(e) => r == Err(e)
    }

    /** The transaction committed as `spec` says, or was refused for its reason and changed nothing. */
    twostate predicate Outcome(spec: Result<Commit>, new r: Result<(u64, u64)>)
      reads this
    {
      match spec
      case Ok(c) => r == Ok((c.assets, c.shares)) && Accounts() == c.state
      case Err(e) => r == Err(e) && Accounts() == old(Accounts())
    }

    /** Whatever a committed transaction did, the vault is backed if it was before. */
    twostate lemma OutcomeBacked(op: Op, r: Result<(u64, u64)>, donated: nat)
      requires Outcome(Step(old(Accounts()), op), r) && r.Ok?
      requires StreamAccrual.Backed(old(Accounts()), donated)
      ensures StreamAccrual.Backed(Accounts(), donated + StreamRuns.Donated(op))
    {
      StreamRuns.StepBacked(old(Accounts()), op, donated);
    }

    constructor (authority: Pubkey, decimalsOffset: u8, now: i64)
      ensures Accounts() == Initial(authority, decimalsOffset, now)
    {
      this.authority, this.decimalsOffset := authority, decimalsOffset;
      paused, base, balance, supply, holdings := false, 0, 0, 0, map[];
      streamAmount, streamStart, streamEnd, streamDistributed := 0, 0, 0, 0;
      lastCheckpoint := now;
    }

    /** The runtime's rollback. */
    method Restore(s: State)
      requires s.config.authority == authority && s.config.decimalsOffset == decimalsOffset
      modifies this
      ensures Accounts() == s
    {
      paused, base, balance, supply, holdings := s.config.paused, s.base, s.balance, s.supply, s.holdings;
      streamAmount, streamStart, streamEnd := s.stream.amount, s.stream.start, s.stream.end;
      streamDistributed, lastCheckpoint := s.stream.distributed, s.lastCheckpoint;
    }

    /** Reports what was moved to the base. */
    method Checkpoint(now: i64) returns (r: Result<u64>)
      modifies this
      ensures match Ledger.Checkpoint(old(Accounts()), now)
              case Ok(c) => r == Ok(c.base - old(base)) && Accounts() == c
              case Err(e) => r == Err(e) && Accounts() == old(Accounts())
    {
      if streamAmount == 0 {
        return Ok(0);
      }
      var effective :- EffectiveTotalAssets(Accounts(), now);
      var accrued :- CheckedSub(effective, base);
      if accrued == 0 {
        return Ok(0);
      }
      var distributed :- CheckedAdd(streamDistributed, accrued);
      base := effective;
      streamDistributed := distributed;
      if now >= streamEnd {
        streamAmount := 0;
        streamStart := 0;
        streamEnd := 0;
        streamDistributed := 0;
      }
      lastCheckpoint := now;
      return Ok(accrued);
    }

    method Issue(user: Pubkey, assets: u64, shares: u64) returns (r: Result<()>)
      modifies this
      ensures match Enter(old(Accounts()), user, assets, shares)
              case Ok(c) => r == Ok(()) && Accounts() == c.state
              case Err(e) => r == Err(e) && Accounts() == old(Accounts())
    {
      var newBalance :- TokenAdd(balance, assets);
      var newSupply :- TokenAdd(supply, shares);
      var held :- TokenAdd(Get(holdings, user), shares);
      base :- CheckedAdd(base, assets);
      balance := newBalance;
      supply := newSupply;
      holdings := holdings[user := held];
      return Ok(());
    }

    method Return(user: Pubkey, assets: u64, shares: u64) returns (r: Result<()>)
      modifies this
      ensures match Leave(old(Accounts()), user, assets, shares)
              case Ok(c) => r == Ok(()) && Accounts() == c.state
              case Err(e) => r == Err(e) && Accounts() == old(Accounts())
    {
      var held :- TokenSub(Get(holdings, user), shares);
      var newSupply :- TokenSub(supply, shares);
      var newBalance :- TokenSub(balance, assets);
      base :- CheckedSub(base, assets);
      holdings := holdings[user := held];
      supply := newSupply;
      balance := newBalance;
      return Ok(());
    }

    // -------------------------------------------------------------- instructions, as the runtime executes them

    method Deposit(user: Pubkey, assets: u64, minShares: u64, now: i64) returns (r: Result<(u64, u64)>)
      modifies this
      ensures Outcome(Ledger.Deposit(old(Accounts()), user, assets, minShares, now), r)
    {
      var before := Accounts();
      r := HandleDeposit(user, assets, minShares, now);
      if r.Err? {
        Restore(before);
      }
    }

    method Mint(user: Pubkey, shares: u64, maxAssets: u64, now: i64) returns (r: Result<(u64, u64)>)
      modifies this
      ensures Outcome(Ledger.Mint(old(Accounts()), user, shares, maxAssets, now), r)
    {
      var before := Accounts();
      r := HandleMint(user, shares, maxAssets, now);
      if r.Err? {
        Restore(before);
      }
    }

    method Withdraw(user: Pubkey, assets: u64, maxShares: u64, now: i64) returns (r: Result<(u64, u64)>)
      modifies this
      ensures Outcome(Ledger.Withdraw(old(Accounts()), user, assets, maxShares, now), r)
    {
      var before := Accounts();
      r := HandleWithdraw(user, assets, maxShares, now);
      if r.Err? {
        Restore(before);
      }
    }

    method Redeem(user: Pubkey, shares: u64, minAssets: u64, now: i64) returns (r: Result<(u64, u64)>)
      modifies this
      ensures Outcome(Ledger.Redeem(old(Accounts()), user, shares, minAssets, now), r)
    {
      var before := Accounts();
      r := HandleRedeem(user, shares, minAssets, now);
      if r.Err? {
        Restore(before);
      }
    }

    method DistributeYield(caller: Pubkey, amount: u64, duration: i64, now: i64) returns (r: Result<(u64, u64)>)
      modifies this
      ensures Outcome(Plain(Ledger.DistributeYield(old(Accounts()), caller, amount, duration, now)), r)
    {
      var before := Accounts();
      r := HandleDistributeYield(caller, amount, duration, now);
      if r.Err? {
        Restore(before);
      }
    }

    method SetPaused(caller: Pubkey, pause: bool) returns (r: Result<(u64, u64)>)
      modifies this`paused
      ensures Outcome(Plain(Ledger.SetPaused(old(Accounts()), caller, pause)), r)
    {
      if caller != authority {
        return Err(Unauthorized);
      }
      :- Require(paused != pause, if pause then VaultPaused else VaultNotPaused);
      paused := pause;
      return Ok((0, 0));
    }

    // -------------------------------------------------------------- their handlers

    method HandleDeposit(user: Pubkey, assets: u64, minShares: u64, now: i64) returns (r: Result<(u64, u64)>)
      modifies this
      ensures Handled(Ledger.Deposit(old(Accounts()), user, assets, minShares, now), r)
    {
      if paused {
        return Err(VaultPaused);
      }
      :- Require(assets > 0, ZeroAmount);
      :- Require(assets >= MIN_DEPOSIT_AMOUNT, DepositTooSmall);
      var _ :- Checkpoint(now);
      var shares :- ConvertToShares(assets, base, supply, decimalsOffset, Floor);
      :- Require(shares > 0, ZeroAmount);
      :- Require(shares >= minShares, SlippageExceeded);
      var _ :- Issue(user, assets, shares);
      return Ok((assets, shares));
    }

    method HandleMint(user: Pubkey, shares: u64, maxAssets: u64, now: i64) returns (r: Result<(u64, u64)>)
      modifies this
      ensures Handled(Ledger.Mint(old(Accounts()), user, shares, maxAssets, now), r)
    {
      if paused {
        return Err(VaultPaused);
      }
      :- Require(shares > 0, ZeroAmount);
      var _ :- Checkpoint(now);
      var assets :- ConvertToAssets(shares, base, supply, decimalsOffset, Ceiling);
      :- Require(assets <= maxAssets, SlippageExceeded);
      var _ :- Issue(user, assets, shares);
      return Ok((assets, shares));
    }

    method HandleWithdraw(user: Pubkey, assets: u64, maxShares: u64, now: i64) returns (r: Result<(u64, u64)>)
      modifies this
      ensures Handled(Ledger.Withdraw(old(Accounts()), user, assets, maxShares, now), r)
    {
      if paused {
        return Err(VaultPaused);
      }
      :- Require(assets > 0, ZeroAmount);
      var _ :- Checkpoint(now);
      :- Require(assets <= base, InsufficientAssets);
      :- Require(assets <= balance, InsufficientAssets);
      var shares :- ConvertToShares(assets, base, supply, decimalsOffset, Ceiling);
      :- Require(shares <= maxShares, SlippageExceeded);
      :- Require(shares <= Get(holdings, user), InsufficientShares);
      var _ :- Return(user, assets, shares);
      return Ok((assets, shares));
    }

    method HandleRedeem(user: Pubkey, shares: u64, minAssets: u64, now: i64) returns (r: Result<(u64, u64)>)
      modifies this
      ensures Handled(Ledger.Redeem(old(Accounts()), user, shares, minAssets, now), r)
    {
      if paused {
        return Err(VaultPaused);
      }
      :- Require(shares > 0, ZeroAmount);
      :- Require(shares <= Get(holdings, user), InsufficientShares);
      var _ :- Checkpoint(now);
      var assets :- ConvertToAssets(shares, base, supply, decimalsOffset, Floor);
      :- Require(assets >= minAssets, SlippageExceeded);
      :- Require(assets <= base, InsufficientAssets);
      :- Require(assets <= balance, InsufficientAssets);
      var _ :- Return(user, assets, shares);
      return Ok((assets, shares));
    }

    method HandleDistributeYield(caller: Pubkey, amount: u64, duration: i64, now: i64) returns (r: Result<(u64, u64)>)
      modifies this
      ensures Handled(Plain(Ledger.DistributeYield(old(Accounts()), caller, amount, duration, now)), r)
    {
      if caller != authority {
        return Err(Unauthorized);
      }
      :- Require(!paused, VaultPaused);
      :- Require(amount > 0, ZeroAmount);
      :- Require(duration >= MIN_STREAM_DURATION, StreamTooShort);
      :- Require(now >= streamEnd || streamAmount == 0, StreamStillActive);
      var _ :- Checkpoint(now);
      var remaining :- CheckedSub(streamAmount, streamDistributed);
      if remaining > 0 {
        base :- CheckedAdd(base, remaining);
      }
      streamAmount := 0;
      streamDistributed := 0;
      balance :- TokenAdd(balance, amount);
      :- Require(now + duration <= I64_MAX, MathOverflow);
      streamAmount := amount;
      streamStart := now;
      streamEnd := now + duration;
      return Ok((0, 0));
    }
  }
}
