/** The tranched vault as its instructions update it, in place, running the waterfall loops on
    the allocations in priority order. Every method does what the transition of the same name in
    `TrancheLedger` does, or leaves everything as it was. */
module TranchedVault {
  import opened Common
  import opened Conversion
  import opened Waterfall
  import opened TrancheLedger
  import TrancheRuns
  import Ledger = TrancheLedger

  class Vault {
    var config: Config
    var wiped: bool
    var totalAssets: u64
    var lastYield: i64
    var balance: u64
    var tranches: seq<Tranche>

    function Accounts(): State
      reads this
    {
      State(config, wiped, totalAssets, lastYield, balance, tranches)
    }

    /** The transaction committed as `spec` says, or was refused for its reason and changed nothing. */
    twostate predicate Outcome(spec: Result<Commit>, new r: Result<(u64, u64)>)
      reads this
    {
      match spec
      case Ok(c) => r == Ok((c.assets, c.shares)) && Accounts() == c.state
      case Err(e) => r == Err(e) && Accounts() == old(Accounts())
    }

    /** Whatever a committed transaction did, the tranches hold no more beyond the reported total than
        before, except what it rebalanced from a tranche to itself. */
    twostate lemma OutcomeSum(op: Op, r: Result<(u64, u64)>)
      requires Outcome(Step(old(Accounts()), op), r) && r.Ok?
      requires TrancheRuns.WellFormed(old(Accounts()))
      ensures TrancheRuns.WellFormed(Accounts())
      ensures TrancheRuns.Excess(Accounts()) == TrancheRuns.Excess(old(Accounts())) + TrancheRuns.SelfMoved(op)
    {
      TrancheRuns.StepWellFormed(old(Accounts()), op);
      TrancheRuns.StepExcess(old(Accounts()), op);
    }

    constructor (authority: Pubkey, decimalsOffset: u8, mode: Mode)
      ensures Accounts() == Initial(authority, decimalsOffset, mode)
    {
      config := Config(authority, authority, decimalsOffset, mode, false);
      wiped, totalAssets, lastYield, balance, tranches := false, 0, 0, 0, [];
    }

    method Deposit(at: nat, user: Pubkey, assets: u64, minShares: u64) returns (r: Result<(u64, u64)>)
      modifies this
      ensures Outcome(Ledger.Deposit(old(Accounts()), at, user, assets, minShares), r)
    {
      if config.paused {
        return Err(VaultPaused);
      }
      :- Require(!wiped, VaultWiped);
      :- Require(at < |tranches|, AccountMissing);
      :- Require(assets > 0, ZeroAmount);
      var t := tranches[at];
      var shares :- ConvertToShares(assets, t.allocation, t.totalShares, config.decimalsOffset, Floor);
      :- Require(shares > 0, ZeroAmount);
      :- Require(shares >= minShares, SlippageExceeded);
      var _ :- Admit(at, user, assets, shares);
      return Ok((assets, shares));
    }

    method Admit(at: nat, user: Pubkey, assets: u64, shares: u64) returns (r: Result<()>)
      requires at < |tranches|
      modifies this
      ensures match Ledger.Admit(old(Accounts()), at, user, assets, shares)
              case Ok(c) => r == Ok(()) && Accounts() == c.state
              case Err(e) => r == Err(e) && Accounts() == old(Accounts())
    {
      var t := tranches[at];
      var allocation :- CheckedAdd(t.allocation, assets);
      var totalShares :- CheckedAdd(t.totalShares, shares);
      var newTotal :- CheckedAdd(totalAssets, assets);
      var limit :- CapLimit(newTotal, t.capBps);
      :- Require(allocation <= limit, CapExceeded);
      var checked := tranches[at := t.(allocation := allocation)];
      var _ :- CheckSubordination(Allocations(checked), Subordinations(checked), newTotal);
      var newBalance :- TokenAdd(balance, assets);
      var supply :- TokenAdd(t.supply, shares);
      var held :- TokenAdd(Get(t.holdings, user), shares);
      :- Require(totalShares == supply, SharesMismatch);
      totalAssets := newTotal;
      balance := newBalance;
      tranches := tranches[at := t.(allocation := allocation, totalShares := totalShares, supply := supply,
                                    holdings := t.holdings[user := held])];
      return Ok(());
    }

    method Redeem(at: nat, user: Pubkey, shares: u64, minAssets: u64) returns (r: Result<(u64, u64)>)
      modifies this
      ensures Outcome(Ledger.Redeem(old(Accounts()), at, user, shares, minAssets), r)
    {
      if config.paused {
        return Err(VaultPaused);
      }
      :- Require(at < |tranches|, AccountMissing);
      :- Require(shares > 0, ZeroAmount);
      var t := tranches[at];
      :- Require(shares <= Get(t.holdings, user), InsufficientShares);
      var assets :- ConvertToAssets(shares, t.allocation, t.totalShares, config.decimalsOffset, Floor);
      :- Require(assets > 0, ZeroAmount);
      :- Require(assets >= minAssets, SlippageExceeded);
      var _ :- Release(at, user, assets, shares);
      return Ok((assets, shares));
    }

    method Release(at: nat, user: Pubkey, assets: u64, shares: u64) returns (r: Result<()>)
      requires at < |tranches|
      modifies this
      ensures match Ledger.Release(old(Accounts()), at, user, assets, shares)
              case Ok(c) => r == Ok(()) && Accounts() == c.state
              case Err(e) => r == Err(e) && Accounts() == old(Accounts())
    {
      if assets > balance {
        return Err(InsufficientLiquidity);
      }
      var t := tranches[at];
      var allocation :- CheckedSub(t.allocation, assets);
      var totalShares :- CheckedSub(t.totalShares, shares);
      var newTotal :- CheckedSub(totalAssets, assets);
      var checked := tranches[at := t.(allocation := allocation)];
      var _ :- CheckSubordination(Allocations(checked), Subordinations(checked), newTotal);
      var held :- TokenSub(Get(t.holdings, user), shares);
      var supply :- TokenSub(t.supply, shares);
      totalAssets := newTotal;
      balance := balance - assets;
      tranches := tranches[at := t.(allocation := allocation, totalShares := totalShares, supply := supply,
                                    holdings := t.holdings[user := held])];
      return Ok(());
    }

    method Split(amount: u64) returns (r: Result<seq<u64>>)
      ensures r == Ledger.Split(config.mode, amount, tranches)
    {
      match config.mode
      case Sequential =>
        r := DistributeYieldSequential(amount, Allocations(tranches), Targets(tranches));
      case ProRataYieldSequentialLoss =>
        r := DistributeYieldProRata(amount, Allocations(tranches));
    }

    /** The tranches with each one's part of a yield added to its allocation. */
    method Credit(y: seq<u64>) returns (r: Result<seq<Tranche>>)
      requires |y| == |tranches|
      ensures match Ledger.Credit(Allocations(tranches), y)
              case Ok(b) => r == Ok(WithAllocations(tranches, b))
              case Err(e) => r == Err(e)
    {
      var credited := tranches;
      var i := 0;
      while i < |credited|
        invariant 0 <= i <= |credited| == |tranches|
        invariant forall k | 0 <= k < i ::
                    tranches[k].allocation + y[k] <= U64_MAX && credited[k] == tranches[k].(allocation := tranches[k].allocation + y[k])
        invariant forall k | i <= k < |tranches| :: credited[k] == tranches[k]
      {
        var t := credited[i];
        assert t.allocation + y[i] > U64_MAX ==> Allocations(tranches)[i] + y[i] > U64_MAX;
        var allocation :- CheckedAdd(t.allocation, y[i]);
        credited := credited[i := t.(allocation := allocation)];
        i := i + 1;
      }
      ghost var b := Ledger.Credit(Allocations(tranches), y);
      assert b.Ok? && credited == WithAllocations(tranches, b.value);
      return Ok(credited);
    }

    method DistributeYield(caller: Pubkey, amount: u64, now: i64) returns (r: Result<(u64, u64)>)
      modifies this
      ensures Outcome(Plain(Ledger.DistributeYield(old(Accounts()), caller, amount, now)), r)
    {
      if caller != config.manager {
        return Err(Unauthorized);
      }
      :- Require(!config.paused, VaultPaused);
      :- Require(amount > 0, ZeroAmount);
      :- Require(lastYield + MIN_YIELD_COOLDOWN <= I64_MAX, MathOverflow);
      :- Require(now >= lastYield + MIN_YIELD_COOLDOWN, YieldCooldownNotElapsed);
      var principal :- SumAllocations(Allocations(tranches));
      :- Require(principal > 0, ZeroAmount);
      :- Require(amount <= principal, CapExceeded);
      var y :- Split(amount);
      var newBalance :- TokenAdd(balance, amount);
      var credited :- Credit(y);
      totalAssets :- CheckedAdd(totalAssets, amount);
      balance := newBalance;
      tranches := credited;
      lastYield := now;
      return Ok((0, 0));
    }

    method RecordLoss(caller: Pubkey, loss: u64) returns (r: Result<(u64, u64)>)
      modifies this
      ensures Outcome(Plain(Ledger.RecordLoss(old(Accounts()), caller, loss)), r)
    {
      if caller != config.manager {
        return Err(Unauthorized);
      }
      :- Require(!config.paused, VaultPaused);
      :- Require(loss > 0, ZeroAmount);
      :- Require(loss <= totalAssets, TotalLoss);
      var ts := tranches;
      var allocations := new u64[|ts|](i requires 0 <= i < |ts| => ts[i].allocation);
      assert allocations[..] == Allocations(ts);
      var _ :- AbsorbLosses(loss, allocations);
      tranches := WithAllocations(ts, allocations[..]);
      totalAssets := totalAssets - loss;
      if totalAssets == 0 {
        wiped := true;
      }
      return Ok((0, 0));
    }

    method Rebalance(caller: Pubkey, from: nat, to: nat, omitted: nat, amount: u64) returns (r: Result<(u64, u64)>)
      modifies this
      ensures Outcome(Plain(Ledger.Rebalance(old(Accounts()), caller, from, to, omitted, amount)), r)
    {
      if caller != config.manager {
        return Err(Unauthorized);
      }
      :- Require(!config.paused, VaultPaused);
      :- Require(from < |tranches| && to < |tranches|, AccountMissing);
      :- Require(amount > 0, ZeroAmount);
      :- Require(!wiped, VaultWiped);
      var payer, payee := tranches[from], tranches[to];
      :- Require(amount <= payer.allocation, InsufficientAllocation);
      var allocation :- CheckedAdd(payee.allocation, amount);
      var presented :- Presented(tranches, from, to, omitted, amount);
      var _ :- CheckSubordination(Allocations(presented), Subordinations(presented), totalAssets);
      if totalAssets > 0 {
        var limit :- CapLimit(totalAssets, payee.capBps);
        :- Require(allocation <= limit, CapExceeded);
      }
      tranches := tranches[from := payer.(allocation := payer.allocation - amount)];
      tranches := tranches[to := payee.(allocation := allocation)];
      return Ok((0, 0));
    }

    method AddTranche(caller: Pubkey, priority: u8, subordinationBps: u16, targetYieldBps: u16, capBps: u16) returns (r: Result<(u64, u64)>)
      modifies this
      ensures Outcome(Plain(Ledger.AddTranche(old(Accounts()), caller, priority, subordinationBps, targetYieldBps, capBps)), r)
    {
      if caller != config.authority {
        return Err(Unauthorized);
      }
      :- Require(!config.paused, VaultPaused);
      :- Require(!wiped, VaultWiped);
      :- Require(|tranches| < MAX_TRANCHES, MaxTranchesReached);
      :- Require(subordinationBps <= 10_000, InvalidSubordinationConfig);
      :- Require(0 < capBps <= 10_000, InvalidCapConfig);
      :- Require(targetYieldBps <= 10_000, InvalidYieldConfig);
      :- Require(priority < PRIORITIES, DuplicatePriority);
      :- Require(forall i | 0 <= i < |tranches| :: tranches[i].priority != priority, DuplicatePriority);
      tranches := Insert(tranches, Tranche(priority, subordinationBps, targetYieldBps, capBps, 0, 0, 0, map[]));
      return Ok((0, 0));
    }

    method UpdateTranche(caller: Pubkey, at: nat, targetYieldBps: Option<u16>, capBps: Option<u16>, subordinationBps: Option<u16>)
      returns (r: Result<(u64, u64)>)
      modifies this
      ensures Outcome(Plain(Ledger.UpdateTranche(old(Accounts()), caller, at, targetYieldBps, capBps, subordinationBps)), r)
    {
      if caller != config.authority {
        return Err(Unauthorized);
      }
      :- Require(at < |tranches|, AccountMissing);
      var t := tranches[at];
      if targetYieldBps.Some? {
        :- Require(targetYieldBps.value <= 10_000, InvalidYieldConfig);
        t := t.(targetYieldBps := targetYieldBps.value);
      }
      if capBps.Some? {
        :- Require(0 < capBps.value <= 10_000, InvalidCapConfig);
        t := t.(capBps := capBps.value);
      }
      if subordinationBps.Some? {
        :- Require(subordinationBps.value <= 10_000, InvalidSubordinationConfig);
        t := t.(subordinationBps := subordinationBps.value);
      }
      var ts := tranches[at := t];
      var _ :- CheckSubordination(Allocations(ts), Subordinations(ts), totalAssets);
      tranches := ts;
      return Ok((0, 0));
    }

    method SetPaused(caller: Pubkey, pause: bool) returns (r: Result<(u64, u64)>)
      modifies this
      ensures Outcome(Plain(Ledger.SetPaused(old(Accounts()), caller, pause)), r)
    {
      if caller != config.authority {
        return Err(Unauthorized);
      }
      :- Require(config.paused != pause, if pause then VaultPaused else VaultNotPaused);
      config := config.(paused := pause);
      return Ok((0, 0));
    }
  }
}
