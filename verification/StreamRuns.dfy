/** What every run of the streaming vault keeps. */
module StreamRuns {
  import opened Common
  import opened Conversion
  import Sums
  import opened StreamLedger
  import opened StreamAccrual
  import Public = PublicLedger
  import PublicPricing
  import PublicRuns

  function VirtualOf(s: State): (vs: nat)
    ensures vs >= 1
  {
    Pow10(s.config.decimalsOffset)
  }

  // ---------------------------------------------------------------- conservation, at any clock

  lemma CheckpointBacked(s: State, now: i64, donated: nat)
    requires Backed(s, donated) && Checkpoint(s, now).Ok?
    ensures var c := Checkpoint(s, now).value;
            && Backed(c, donated) && c.config == s.config
            && c.balance == s.balance && c.supply == s.supply && c.holdings == s.holdings
  {
    if Timely(s, now) {
      CheckpointKeepsWorth(s, now, donated);
    } else if now > s.stream.start {
      RefusedOnlyBackwards(s, now, donated);
    }
  }

  lemma EnterBacked(s: State, user: Pubkey, assets: u64, shares: u64, donated: nat)
    requires Backed(s, donated) && Enter(s, user, assets, shares).Ok?
    ensures var t := Enter(s, user, assets, shares).value.state;
            && Backed(t, donated) && t.config == s.config && t.stream == s.stream && t.balance == s.balance + assets
            && t.base == s.base + assets && t.supply == s.supply + shares
  {
    Sums.HoldingsStep(s.holdings, user, Get(s.holdings, user) + shares);
  }

  lemma LeaveBacked(s: State, user: Pubkey, assets: u64, shares: u64, donated: nat)
    requires Backed(s, donated) && Leave(s, user, assets, shares).Ok?
    ensures var t := Leave(s, user, assets, shares).value.state;
            && Backed(t, donated) && t.config == s.config && t.stream == s.stream && t.balance == s.balance - assets
            && t.base == s.base - assets && t.supply == s.supply - shares
  {
    Sums.HoldingsStep(s.holdings, user, Get(s.holdings, user) - shares);
  }

  /** Backed holders are always paid: neither of the program's asset checks can refuse a redeem,
      and only the first a withdrawal. */
  lemma RedeemNeverShort(s: State, user: Pubkey, shares: u64, minAssets: u64, now: i64, donated: nat)
    requires Backed(s, donated)
    ensures Redeem(s, user, shares, minAssets, now) != Err(InsufficientAssets)
  {
    if Checkpoint(s, now).Ok? && shares <= Get(s.holdings, user) {
      CheckpointBacked(s, now, donated);
      var c := Checkpoint(s, now).value;
      Sums.HoldingsStep(c.holdings, user, 0);
      if ToAssets(c, shares, Floor).Ok? {
        RedeemSolvent(shares, c.base, c.supply, c.config.decimalsOffset);
      }
    }
  }

  predicate Exchange(op: Op) {
    op.DepositOp? || op.MintOp? || op.WithdrawOp? || op.RedeemOp?
  }

  predicate Entry(op: Op) {
    op.DepositOp? || op.MintOp?
  }

  function Donated(op: Op): nat {
    if op.DonateOp? then op.amount else 0
  }

  lemma EntryParts(s: State, op: Op)
    requires Entry(op) && Step(s, op).Ok?
    ensures Checkpoint(s, op.now).Ok?
    ensures var c, x := Checkpoint(s, op.now).value, Step(s, op).value;
            && Step(s, op) == Enter(c, op.user, x.assets, x.shares)
            && (op.DepositOp? ==> x.assets == op.assets && ToShares(c, x.assets, Floor) == Ok(x.shares))
            && (op.MintOp? ==> x.shares == op.shares && ToAssets(c, x.shares, Ceiling) == Ok(x.assets))
  {}

  lemma ExitParts(s: State, op: Op)
    requires Exchange(op) && !Entry(op) && Step(s, op).Ok?
    ensures Checkpoint(s, op.now).Ok?
    ensures var c, x := Checkpoint(s, op.now).value, Step(s, op).value;
            && Step(s, op) == Leave(c, op.user, x.assets, x.shares)
            && (op.WithdrawOp? ==> x.assets == op.assets && ToShares(c, x.assets, Ceiling) == Ok(x.shares))
            && (op.RedeemOp? ==> x.shares == op.shares && ToAssets(c, x.shares, Floor) == Ok(x.assets))
  {}

  lemma ExchangeBacked(s: State, op: Op, donated: nat)
    requires Backed(s, donated) && Exchange(op) && Step(s, op).Ok?
    ensures var x := Step(s, op).value;
            Backed(x.state, donated) && x.state.config == s.config
            && x.state.balance == if Entry(op) then s.balance + x.assets else s.balance - x.assets
  {
    var x := Step(s, op).value;
    if Entry(op) { EntryParts(s, op); } else { ExitParts(s, op); }
    var c := Checkpoint(s, op.now).value;
    CheckpointBacked(s, op.now, donated);
    if Entry(op) {
      EnterBacked(c, op.user, x.assets, x.shares, donated);
    } else {
      LeaveBacked(c, op.user, x.assets, x.shares, donated);
    }
  }

  lemma DistributeBacked(s: State, caller: Pubkey, amount: u64, duration: i64, now: i64, donated: nat)
    requires Backed(s, donated) && DistributeYield(s, caller, amount, duration, now).Ok?
    ensures var t := DistributeYield(s, caller, amount, duration, now).value;
            && Backed(t, donated) && t.config == s.config
            && t.balance == s.balance + amount && t.supply == s.supply
            && t.stream == Stream(amount, now, now + duration, 0) && t.base == Checkpoint(s, now).value.base
  {
    NothingLeftToReplace(s, now, donated);
    CheckpointBacked(s, now, donated);
  }

  lemma TransferBacked(s: State, from: Pubkey, to: Pubkey, amount: u64, donated: nat)
    requires Backed(s, donated) && Transfer(s, from, to, amount).Ok?
    ensures Backed(Transfer(s, from, to, amount).value, donated)
  {
    var debited := s.holdings[from := Get(s.holdings, from) - amount];
    Sums.HoldingsStep(s.holdings, from, Get(s.holdings, from) - amount);
    Sums.HoldingsStep(debited, to, Get(debited, to) + amount);
  }

  lemma BurnBacked(s: State, from: Pubkey, amount: u64, donated: nat)
    requires Backed(s, donated) && Burn(s, from, amount).Ok?
    ensures Backed(Burn(s, from, amount).value, donated)
  {
    Sums.HoldingsStep(s.holdings, from, Get(s.holdings, from) - amount);
  }

  lemma StepBacked(s: State, op: Op, donated: nat)
    requires Backed(s, donated) && Step(s, op).Ok?
    ensures Backed(Step(s, op).value.state, donated + Donated(op))
  {
    if Exchange(op) {
      ExchangeBacked(s, op, donated);
    } else if op.CheckpointOp? {
      CheckpointBacked(s, op.now, donated);
    } else if op.DistributeYieldOp? {
      DistributeBacked(s, op.caller, op.amount, op.duration, op.now, donated);
    } else if op.TransferOp? {
      TransferBacked(s, op.from, op.to, op.amount, donated);
    } else if op.BurnOp? {
      BurnBacked(s, op.from, op.amount, donated);
    }
  }

  function Donations(ops: seq<Op>): nat {
    if ops == [] then 0 else Donated(ops[0]) + Donations(ops[1..])
  }

  /** In every run, at any clock readings, the vault holds its base, the unreleased rest of the
      stream and the donations, to the unit. */
  lemma {:induction false} RunBacked(s: State, ops: seq<Op>, donated: nat)
    requires Backed(s, donated) && Run(s, ops).Ok?
    ensures Backed(Run(s, ops).value, donated + Donations(ops))
    decreases |ops|
  {
    if ops != [] {
      StepBacked(s, ops[0], donated);
      RunBacked(Step(s, ops[0]).value.state, ops[1..], donated + Donated(ops[0]));
    }
  }

  lemma InitialBacked(authority: Pubkey, offset: u8, now: i64)
    ensures Backed(Initial(authority, offset, now), 0)
  {}

  /** The claim that base and stream amount never exceed the balance holds exactly while the
      checkpoints have moved no more than was donated: a checkpoint grows the base and leaves the
      stream amount as it was. */
  lemma ClaimedBoundIff(authority: Pubkey, offset: u8, now: i64, ops: seq<Op>)
    requires Run(Initial(authority, offset, now), ops).Ok?
    ensures var s := Run(Initial(authority, offset, now), ops).value;
            s.base + s.stream.amount <= s.balance <==> s.stream.distributed <= Donations(ops)
  {
    InitialBacked(authority, offset, now);
    RunBacked(Initial(authority, offset, now), ops, 0);
  }

  lemma ClaimedBoundFails(authority: Pubkey, user: Pubkey)
    ensures var ops := [DepositOp(user, 1000, 0, 0), DistributeYieldOp(authority, 1000, 100, 0), CheckpointOp(50)];
            Run(Initial(authority, 3, 0), ops).Ok?
            && var s := Run(Initial(authority, 3, 0), ops).value;
            s.base == 1500 && s.stream.amount == 1000 && s.balance == 2000
  {
    var s0 := Initial(authority, 3, 0);
    var op0, op1, op2 := DepositOp(user, 1000, 0, 0), DistributeYieldOp(authority, 1000, 100, 0), CheckpointOp(50);
    assert Pow10(3) == 1000 by { assert Pow10(1) == 10; }
    ExactToShares(1000, 0, 0, 3, Floor);
    assert ConvertToShares(1000, 0, 0, 3, Floor) == Ok(1_000_000);
    var s1 := Step(s0, op0).value.state;
    var s2 := Step(s1, op1).value.state;
    assert s2.base == 1000 && s2.stream == Stream(1000, 0, 100, 0) && s2.balance == 2000;
    LineComputed(1000, 50, 100);
    var s3 := Step(s2, op2).value.state;
    assert [op0, op1, op2][1..] == [op1, op2];
    assert [op1, op2][1..] == [op2];
    assert [op2][1..] == [];
    assert Run(s3, []) == Ok(s3);
    assert Run(s2, [op2]) == Ok(s3);
    assert Run(s1, [op1, op2]) == Ok(s3);
  }

  // ---------------------------------------------------------------- previews

  lemma CheckpointBase(s: State, now: i64)
    requires Checkpoint(s, now).Ok?
    ensures EffectiveTotalAssets(s, now) == Ok(Checkpoint(s, now).value.base)
    ensures Checkpoint(s, now).value.supply == s.supply && Checkpoint(s, now).value.config == s.config
  {}

  /** The previews price at the interpolated total, the instructions at the base left by their own
      checkpoint, and the two always agree. */
  lemma PreviewsAgree(s: State, op: Op)
    requires Exchange(op) && Step(s, op).Ok?
    ensures var x := Step(s, op).value;
            && (op.DepositOp? ==> PreviewDeposit(s, op.assets, op.now) == Ok(x.shares))
            && (op.MintOp? ==> PreviewMint(s, op.shares, op.now) == Ok(x.assets))
            && (op.WithdrawOp? ==> PreviewWithdraw(s, op.assets, op.now) == Ok(x.shares))
            && (op.RedeemOp? ==> PreviewRedeem(s, op.shares, op.now) == Ok(x.assets))
  {
    if Entry(op) { EntryParts(s, op); } else { ExitParts(s, op); }
    CheckpointBase(s, op.now);
  }

  // ---------------------------------------------------------------- the price over time

  /** The vault at time `t1` is priced at least as high as at `t0`. */
  predicate PriceKept(s: State, t0: int, t: State, t1: int) {
    && t.config.decimalsOffset == s.config.decimalsOffset
    && 0 <= Worth(s, t0) && 0 <= Worth(t, t1)
    && PriceAtLeast(Worth(s, t0), s.supply, Worth(t, t1), t.supply, VirtualOf(s))
  }

  lemma PriceKeptTransitive(s: State, t0: int, m: State, t1: int, t: State, t2: int)
    requires PriceKept(s, t0, m, t1) && PriceKept(m, t1, t, t2)
    ensures PriceKept(s, t0, t, t2)
  {
    PriceTransitive(Worth(s, t0), s.supply, Worth(m, t1), m.supply, Worth(t, t2), t.supply, VirtualOf(s));
  }

  lemma PriceKeptMonotone(s: State, t0: int, t: State, t1: int)
    requires 0 <= Worth(s, t0) <= Worth(t, t1) && t.supply <= s.supply
    requires t.config.decimalsOffset == s.config.decimalsOffset
    ensures PriceKept(s, t0, t, t1)
  {
    PriceMonotone(Worth(s, t0), s.supply, Worth(t, t1), t.supply, VirtualOf(s));
  }

  /** The clock after a transaction: the one it read, if it read any. */
  function Clock(op: Op, clock: i64): i64 {
    if Exchange(op) || op.CheckpointOp? || op.DistributeYieldOp? then op.now else clock
  }

  predicate InOrder(ops: seq<Op>, clock: i64) {
    ops == [] || (clock <= Clock(ops[0], clock) && InOrder(ops[1..], Clock(ops[0], clock)))
  }

  function LastClock(ops: seq<Op>, clock: i64): i64 {
    if ops == [] then clock else LastClock(ops[1..], Clock(ops[0], clock))
  }

  /** The state is backed and its clock has not run past `clock`. */
  ghost predicate Valid(s: State, clock: i64, donated: nat) {
    Backed(s, donated) && Timely(s, clock)
  }

  lemma CheckpointPrice(s: State, clock: i64, now: i64, donated: nat)
    requires Valid(s, clock, donated) && clock <= now
    ensures Checkpoint(s, now).Ok?
    ensures var c := Checkpoint(s, now).value;
            Valid(c, now, donated) && PriceKept(s, clock, c, now) && Worth(c, now) == c.base
  {
    TimelyLater(s, clock, now);
    EffectiveIsWorth(s, clock, donated);
    CheckpointKeepsWorth(s, now, donated);
    PriceKeptMonotone(s, clock, Checkpoint(s, now).value, now);
  }

  lemma ExchangePrice(c: State, t: State, now: int, assets: int, shares: int)
    requires FavoursPool(c.base, c.supply, VirtualOf(c), assets, shares) && Worth(c, now) == c.base
    requires t.config == c.config && t.stream == c.stream && t.base == c.base + assets && t.supply == c.supply + shares
    ensures PriceKept(c, now, t, now)
  {
    FavoursPoolIffPriceKept(c.base, c.supply, VirtualOf(c), assets, shares);
  }

  lemma EntryPrice(s: State, op: Op, clock: i64, donated: nat)
    requires Valid(s, clock, donated) && Entry(op) && clock <= op.now && Step(s, op).Ok?
    ensures var t := Step(s, op).value.state; Valid(t, op.now, donated) && PriceKept(s, clock, t, op.now)
  {
    EntryParts(s, op);
    CheckpointPrice(s, clock, op.now, donated);
    var c, x := Checkpoint(s, op.now).value, Step(s, op).value;
    EnterBacked(c, op.user, x.assets, x.shares, donated);
    if op.DepositOp? {
      DepositFavoursPool(x.assets, c.base, c.supply, c.config.decimalsOffset);
    } else {
      MintFavoursPool(x.shares, c.base, c.supply, c.config.decimalsOffset);
    }
    ExchangePrice(c, x.state, op.now, x.assets, x.shares);
    PriceKeptTransitive(s, clock, c, op.now, x.state, op.now);
  }

  lemma {:induction false} ExitPrice(s: State, op: Op, clock: i64, donated: nat)
    requires Valid(s, clock, donated) && Exchange(op) && !Entry(op) && clock <= op.now && Step(s, op).Ok?
    ensures var t := Step(s, op).value.state; Valid(t, op.now, donated) && PriceKept(s, clock, t, op.now)
  {
    ExitParts(s, op);
    CheckpointPrice(s, clock, op.now, donated);
    var c, x := Checkpoint(s, op.now).value, Step(s, op).value;
    LeaveBacked(c, op.user, x.assets, x.shares, donated);
    if op.WithdrawOp? {
      WithdrawFavoursPool(x.assets, c.base, c.supply, c.config.decimalsOffset);
    } else {
      RedeemFavoursPool(x.shares, c.base, c.supply, c.config.decimalsOffset);
    }
    ExchangePrice(c, x.state, op.now, 0 - x.assets, 0 - x.shares);
    PriceKeptTransitive(s, clock, c, op.now, x.state, op.now);
  }

  lemma DistributePrice(s: State, op: Op, clock: i64, donated: nat)
    requires Valid(s, clock, donated) && op.DistributeYieldOp? && clock <= op.now && Step(s, op).Ok?
    ensures var t := Step(s, op).value.state; Valid(t, op.now, donated) && PriceKept(s, clock, t, op.now)
  {
    DistributeBacked(s, op.caller, op.amount, op.duration, op.now, donated);
    CheckpointPrice(s, clock, op.now, donated);
    var c, t := Checkpoint(s, op.now).value, Step(s, op).value.state;
    PriceKeptMonotone(c, op.now, t, op.now);
    PriceKeptTransitive(s, clock, c, op.now, t, op.now);
  }

  lemma StepPrice(s: State, op: Op, clock: i64, donated: nat)
    requires Valid(s, clock, donated) && clock <= Clock(op, clock) && Step(s, op).Ok?
    ensures var t, now := Step(s, op).value.state, Clock(op, clock);
            Valid(t, now, donated + Donated(op)) && PriceKept(s, clock, t, now)
  {
    if Entry(op) {
      EntryPrice(s, op, clock, donated);
    } else if Exchange(op) {
      ExitPrice(s, op, clock, donated);
    } else if op.CheckpointOp? {
      CheckpointPrice(s, clock, op.now, donated);
    } else if op.DistributeYieldOp? {
      DistributePrice(s, op, clock, donated);
    } else {
      StepBacked(s, op, donated);
      EffectiveIsWorth(s, clock, donated);
      PriceKeptMonotone(s, clock, Step(s, op).value.state, clock);
    }
  }

  /** What a run paid in and out, and what reached the vault as yield or from outside. */
  datatype Flow = Flow(paidIn: nat, paidOut: nat, given: nat)

  function StepFlow(s: State, op: Op): Flow
    requires Step(s, op).Ok?
  {
    var assets := Step(s, op).value.assets;
    if Entry(op) then Flow(assets, 0, 0)
    else if Exchange(op) then Flow(0, assets, 0)
    else if op.DonateOp? || op.DistributeYieldOp? then Flow(0, 0, op.amount)
    else Flow(0, 0, 0)
  }

  function RunFlow(s: State, ops: seq<Op>): Flow
    requires Run(s, ops).Ok?
    decreases |ops|
  {
    if ops == [] then Flow(0, 0, 0)
    else
      var f, g := StepFlow(s, ops[0]), RunFlow(Step(s, ops[0]).value.state, ops[1..]);
      Flow(f.paidIn + g.paidIn, f.paidOut + g.paidOut, f.given + g.given)
  }

  lemma StepBalance(s: State, op: Op, donated: nat)
    requires Backed(s, donated) && Step(s, op).Ok?
    ensures var t, f := Step(s, op).value.state, StepFlow(s, op);
            t.balance == s.balance + f.paidIn - f.paidOut + f.given
  {
    if Exchange(op) {
      ExchangeBacked(s, op, donated);
    } else if op.CheckpointOp? {
      CheckpointBacked(s, op.now, donated);
    } else if op.DistributeYieldOp? {
      DistributeBacked(s, op.caller, op.amount, op.duration, op.now, donated);
    }
  }

  /** With a clock that does not run backwards, the price never falls, across exchanges,
      checkpoints, new streams and the mere passing of time. */
  lemma {:induction false} RunPrice(s: State, ops: seq<Op>, clock: i64, donated: nat)
    requires Valid(s, clock, donated) && Run(s, ops).Ok? && InOrder(ops, clock)
    ensures var t, f := Run(s, ops).value, RunFlow(s, ops);
            && Valid(t, LastClock(ops, clock), donated + Donations(ops))
            && PriceKept(s, clock, t, LastClock(ops, clock))
            && t.balance == s.balance + f.paidIn - f.paidOut + f.given
    decreases |ops|
  {
    if ops == [] {
      EffectiveIsWorth(s, clock, donated);
    } else {
      var op := ops[0];
      StepPrice(s, op, clock, donated);
      StepBalance(s, op, donated);
      var m := Step(s, op).value.state;
      RunPrice(m, ops[1..], Clock(op, clock), donated + Donated(op));
      PriceKeptTransitive(s, clock, m, Clock(op, clock), Run(s, ops).value, LastClock(ops, clock));
    }
  }

  /** Assets in the vault that are not priced yet: the stream still to come, and donations. */
  function Unreleased(s: State, t: int): int {
    s.balance - Worth(s, t)
  }

  /** Between two moments of equal supply, everything paid out was paid in, given, or released in
      between: a stream that is still to come is never paid early. */
  lemma NothingPaidEarly(s: State, ops: seq<Op>, clock: i64, donated: nat)
    requires Valid(s, clock, donated) && Run(s, ops).Ok? && InOrder(ops, clock)
    requires Run(s, ops).value.supply >= s.supply
    ensures var t, f := Run(s, ops).value, RunFlow(s, ops);
            f.paidOut + Unreleased(t, LastClock(ops, clock)) <= f.paidIn + f.given + Unreleased(s, clock)
  {
    RunPrice(s, ops, clock, donated);
    var t := Run(s, ops).value;
    PriceBacked(Worth(s, clock), s.supply, Worth(t, LastClock(ops, clock)), t.supply, VirtualOf(s));
  }

  // ---------------------------------------------------------------- dust

  /** Between streams the vault is a stored-balance vault whose recorded total is the base. */
  function AsStored(s: State): Public.State {
    Public.State(Public.Config(Public.Stored, s.config.authority, s.config.decimalsOffset, s.config.paused),
                 s.base, s.balance, s.supply, s.holdings)
  }

  lemma {:induction false} RedeemAsStored(s: State, user: Pubkey, shares: u64, minAssets: u64, now: i64, donated: nat)
    requires Backed(s, donated) && s.stream.amount == 0
    requires Redeem(s, user, shares, minAssets, now).Ok?
    ensures var x := Redeem(s, user, shares, minAssets, now).value;
            && x.state.stream.amount == 0
            && Public.Redeem(AsStored(s), user, shares, minAssets) == Ok(Public.Commit(AsStored(x.state), x.assets, x.shares))
  {}

  function StoredRedeems(ops: seq<Op>): seq<Public.Op>
    requires forall op | op in ops :: op.RedeemOp?
  {
    if ops == [] then []
    else [Public.RedeemOp(ops[0].user, ops[0].shares, ops[0].minAssets)] + StoredRedeems(ops[1..])
  }

  lemma {:induction false} RedeemsAsStored(s: State, ops: seq<Op>, donated: nat)
    requires Backed(s, donated) && s.stream.amount == 0 && Run(s, ops).Ok?
    requires forall op | op in ops :: op.RedeemOp?
    ensures |StoredRedeems(ops)| == |ops| && forall op | op in StoredRedeems(ops) :: op.RedeemOp?
    ensures Public.Run(AsStored(s), StoredRedeems(ops)) == Ok(AsStored(Run(s, ops).value))
    decreases |ops|
  {
    if ops != [] {
      var op := ops[0];
      assert op in ops;
      RedeemAsStored(s, op.user, op.shares, op.minAssets, op.now, donated);
      StepBacked(s, op, donated);
      RedeemsAsStored(Step(s, op).value.state, ops[1..], donated);
      assert StoredRedeems(ops)[1..] == StoredRedeems(ops[1..]);
    }
  }

  /** After a stream has been checkpointed to its end, redeeming the whole supply in `n` redeems
      leaves the value of the virtual shares and at most `n - 1` units more. */
  lemma StreamDrainDust(s: State, ops: seq<Op>, donated: nat)
    requires Backed(s, donated) && s.stream.amount == 0
    requires ops != [] && Run(s, ops).Ok? && Run(s, ops).value.supply == 0
    requires forall op | op in ops :: op.RedeemOp?
    ensures var c := PublicRuns.Residue(s.base, s.supply, VirtualOf(s));
            c <= Run(s, ops).value.base <= c + |ops| - 1
  {
    RedeemsAsStored(s, ops, donated);
    PublicRuns.DrainDust(AsStored(s), StoredRedeems(ops));
  }

  // ---------------------------------------------------------------- new streams

  /** Exactly when a new stream starts: never over one that still runs, and then neither taking the
      checkpoint nor closing the old stream can fail. */
  lemma DistributeYieldIff(s: State, caller: Pubkey, amount: u64, duration: i64, now: i64, donated: nat)
    requires Backed(s, donated)
    ensures DistributeYield(s, caller, amount, duration, now).Ok? <==>
              && caller == s.config.authority && !s.config.paused
              && amount > 0 && duration >= MIN_STREAM_DURATION && (now >= s.stream.end || s.stream.amount == 0)
              && s.balance + amount <= U64_MAX && now + duration <= I64_MAX
  {
    if now >= s.stream.end || s.stream.amount == 0 {
      NothingLeftToReplace(s, now, donated);
      CheckpointBacked(s, now, donated);
    }
  }

  // ---------------------------------------------------------------- exits

  lemma LeaveEnabled(s: State, user: Pubkey, assets: u64, shares: u64, donated: nat)
    requires Backed(s, donated) && assets <= s.base && shares <= Get(s.holdings, user)
    ensures Leave(s, user, assets, shares).Ok?
  {
    Sums.HoldingsStep(s.holdings, user, 0);
  }

  /** The virtual totals fit in 64 bits, now and whatever the stream still releases. */
  predicate Priceable(s: State) {
    s.balance < U64_MAX && s.supply + VirtualOf(s) <= U64_MAX
  }

  /** Exactly when a holder's redeem succeeds, at any moment of a stream: it is priced at what the
      vault is then worth, and never refused for want of assets. */
  lemma RedeemIff(s: State, user: Pubkey, shares: u64, minAssets: u64, now: i64, donated: nat)
    requires Valid(s, now, donated) && Priceable(s)
    ensures Redeem(s, user, shares, minAssets, now).Ok? <==>
              && !s.config.paused && 0 < shares <= Get(s.holdings, user)
              && minAssets * (s.supply + VirtualOf(s)) <= shares * (Worth(s, now) + 1)
    ensures Redeem(s, user, shares, minAssets, now).Ok? ==>
              Rounded(shares * (Worth(s, now) + 1), s.supply + VirtualOf(s), Floor, Redeem(s, user, shares, minAssets, now).value.assets)
  {
    CheckpointKeepsWorth(s, now, donated);
    CheckpointBacked(s, now, donated);
    var c := Checkpoint(s, now).value;
    Sums.HoldingsStep(c.holdings, user, 0);
    if shares <= Get(c.holdings, user) {
      RedeemSucceeds(shares, c.base, c.supply, c.config.decimalsOffset);
      RedeemSolvent(shares, c.base, c.supply, c.config.decimalsOffset);
      ToAssetsRounded(shares, c.base, c.supply, c.config.decimalsOffset, Floor);
      var r := ToAssets(c, shares, Floor).value;
      FloorAtLeast(shares * (c.base + 1), c.supply + VirtualOf(c), r, minAssets);
      LeaveEnabled(c, user, r, shares, donated);
    }
  }

  /** Shares `u` redeems in `ops`. */
  function Redeemed(ops: seq<Op>, u: Pubkey): nat {
    if ops == [] then 0
    else (if ops[0].RedeemOp? && ops[0].user == u then ops[0].shares else 0) + Redeemed(ops[1..], u)
  }

  predicate Exits(ops: seq<Op>) {
    forall op | op in ops :: op.RedeemOp? && op.shares > 0 && op.minAssets == 0
  }

  lemma ExitEffect(s: State, op: Op, clock: i64, donated: nat)
    requires Valid(s, clock, donated) && Priceable(s) && !s.config.paused
    requires op.RedeemOp? && clock <= op.now && op.minAssets == 0 && 0 < op.shares <= Get(s.holdings, op.user)
    ensures Step(s, op).Ok?
    ensures var x := Step(s, op).value;
            && Valid(x.state, op.now, donated) && Priceable(x.state) && !x.state.config.paused
            && x.state.balance == s.balance - x.assets
            && x.state.holdings == s.holdings[op.user := Get(s.holdings, op.user) - op.shares]
            && (forall t | op.now <= t :: Worth(x.state, t) == Worth(s, t) - x.assets)
  {
    TimelyLater(s, clock, op.now);
    EffectiveIsWorth(s, op.now, donated);
    MulMono(0, op.shares, Worth(s, op.now) + 1);
    RedeemIff(s, op.user, op.shares, 0, op.now, donated);
    ExitParts(s, op);
    CheckpointKeepsWorth(s, op.now, donated);
    CheckpointBacked(s, op.now, donated);
    var c, x := Checkpoint(s, op.now).value, Step(s, op).value;
    LeaveBacked(c, op.user, x.assets, x.shares, donated);
    forall t | op.now <= t ensures Worth(x.state, t) == Worth(s, t) - x.assets {
      assert Worth(c, t) == Worth(s, t);
    }
  }

  /** At any moments of a stream, holders can redeem one after another, in any order and split, and
      are paid between them exactly what the vault's worth falls by: never more than it has
      released by then. */
  lemma {:induction false} EveryoneCanLeave(s: State, ops: seq<Op>, clock: i64, donated: nat)
    requires Valid(s, clock, donated) && Priceable(s) && !s.config.paused
    requires Exits(ops) && InOrder(ops, clock) && forall u :: Redeemed(ops, u) <= Get(s.holdings, u)
    ensures Run(s, ops).Ok?
    ensures var t, last := Run(s, ops).value, LastClock(ops, clock);
            && clock <= last && 0 <= Worth(t, last)
            && RunFlow(s, ops).paidOut == s.balance - t.balance == Worth(s, last) - Worth(t, last)
    decreases |ops|
  {
    if ops == [] {
      EffectiveIsWorth(s, clock, donated);
    } else {
      var op := ops[0];
      assert op in ops;
      assert Redeemed(ops, op.user) <= Get(s.holdings, op.user);
      ExitEffect(s, op, clock, donated);
      var m := Step(s, op).value.state;
      forall u ensures Redeemed(ops[1..], u) <= Get(m.holdings, u) {
        assert Redeemed(ops, u) <= Get(s.holdings, u);
      }
      EveryoneCanLeave(m, ops[1..], op.now, donated);
    }
  }
}
