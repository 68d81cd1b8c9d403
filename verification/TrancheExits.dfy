/** Leaving the tranched vault, one redeem after another, in any order, from every
    reachable state.

    The amounts of a vault, without its accounts, form a pool. Whether a sequence of redeems can
    be paid is a property of the pool alone, and the program commits exactly those that can. */
module TrancheExits {
  import opened Common
  import opened Conversion
  import opened Waterfall
  import opened TrancheLedger
  import TrancheRuns
  import opened TrancheGuarantees

  /** The reported total, and allocations and counted shares of the tranches, most senior first. */
  datatype Pool = Pool(total: u64, assets: seq<u64>, shares: seq<u64>)

  datatype Exit = Exit(at: nat, shares: u64)

  ghost predicate Shaped(p: Pool, bps: seq<u16>, exits: seq<Exit>) {
    && |p.assets| == |p.shares| == |bps|
    && forall e | e in exits :: e.at < |bps|
  }

  /** What the exit is worth at its tranche's price. */
  function Worth(p: Pool, e: Exit, vs: nat): nat
    requires vs > 0 && e.at < |p.assets| == |p.shares|
  {
    var assets: int := p.assets[e.at];
    ProductNonNegative(e.shares, assets + 1);
    Quotient(e.shares * (assets + 1), p.shares[e.at] + vs, Floor)
  }

  /** The pool can pay `paid` for the exit: it is something and no more than the total, and paying it
      leaves every tranche protected of the rest, by sums the program can form. */
  predicate Covers(p: Pool, bps: seq<u16>, e: Exit, paid: nat)
    requires e.at < |p.assets| == |p.shares| == |bps|
  {
    && 0 < paid <= p.assets[e.at] && paid <= p.total && e.shares <= p.shares[e.at]
    && SeniorsFit(p.assets, bps, Total(p.assets) - p.total, p.total - paid, e.at)
    && JuniorsProtect(p.assets, bps, p.total - paid, e.at)
    && Summable(p.assets[e.at := p.assets[e.at] - paid], bps)
  }

  predicate Payable(p: Pool, bps: seq<u16>, e: Exit, vs: nat)
    requires vs > 0 && e.at < |p.assets| == |p.shares| == |bps|
  {
    Covers(p, bps, e, Worth(p, e, vs))
  }

  function Pay(p: Pool, bps: seq<u16>, e: Exit, vs: nat): Pool
    requires vs > 0 && e.at < |p.assets| == |p.shares| == |bps| && Payable(p, bps, e, vs)
  {
    var paid := Worth(p, e, vs);
    Pool(p.total - paid, p.assets[e.at := p.assets[e.at] - paid], p.shares[e.at := p.shares[e.at] - e.shares])
  }

  /** Each exit can be paid from what the ones before it have left. */
  ghost predicate AllPayable(p: Pool, bps: seq<u16>, exits: seq<Exit>, vs: nat)
    requires vs > 0 && Shaped(p, bps, exits)
    decreases |exits|
  {
    exits == [] || (assert exits[0] in exits; Payable(p, bps, exits[0], vs) && AllPayable(Pay(p, bps, exits[0], vs), bps, exits[1..], vs))
  }

  ghost function PayAll(p: Pool, bps: seq<u16>, exits: seq<Exit>, vs: nat): Pool
    requires vs > 0 && Shaped(p, bps, exits) && AllPayable(p, bps, exits, vs)
    decreases |exits|
  {
    if exits == [] then p
    else
      assert exits[0] in exits;
      PayAll(Pay(p, bps, exits[0], vs), bps, exits[1..], vs)
  }

  // ---------------------------------------------------------------- the vault

  function Shares(ts: seq<Tranche>): (n: seq<u64>)
    ensures |n| == |ts| && forall i | 0 <= i < |ts| :: n[i] == ts[i].totalShares
  {
    seq(|ts|, i requires 0 <= i < |ts| => ts[i].totalShares)
  }

  function PoolOf(s: State): Pool {
    Pool(s.totalAssets, Allocations(s.tranches), Shares(s.tranches))
  }

  /** A holder leaves with some shares of a tranche, at whatever they are worth. */
  datatype Leaver = Leaver(exit: Exit, user: Pubkey)

  function Redeems(leavers: seq<Leaver>): seq<Op> {
    if leavers == [] then []
    else [RedeemOp(leavers[0].exit.at, leavers[0].user, leavers[0].exit.shares, 0)] + Redeems(leavers[1..])
  }

  function ExitsOf(leavers: seq<Leaver>): seq<Exit> {
    if leavers == [] then [] else [leavers[0].exit] + ExitsOf(leavers[1..])
  }

  /** Shares of tranche `at` that `user` leaves with. */
  function Leaving(leavers: seq<Leaver>, at: nat, user: Pubkey): nat {
    if leavers == [] then 0
    else (if leavers[0].exit.at == at && leavers[0].user == user then leavers[0].exit.shares else 0) + Leaving(leavers[1..], at, user)
  }

  /** Each leaves some existing tranche, and nobody with more than they hold. */
  ghost predicate WithinHoldings(s: State, leavers: seq<Leaver>) {
    && (forall l | l in leavers :: l.exit.at < |s.tranches| && l.exit.shares > 0)
    && (forall at, user | 0 <= at < |s.tranches| :: Leaving(leavers, at, user) <= Get(s.tranches[at].holdings, user))
  }

  /** The virtual totals of every tranche fit in 64 bits. */
  predicate Priceable(s: State) {
    forall i | 0 <= i < |s.tranches| ::
      s.tranches[i].allocation < U64_MAX && s.tranches[i].totalShares + VirtualOf(s) <= U64_MAX
  }

  lemma ExitsShaped(s: State, leavers: seq<Leaver>)
    requires forall l | l in leavers :: l.exit.at < |s.tranches|
    ensures |ExitsOf(leavers)| == |leavers|
    ensures Shaped(PoolOf(s), Subordinations(s.tranches), ExitsOf(leavers))
    decreases |leavers|
  {
    if leavers != [] {
      assert leavers[0] in leavers;
      ExitsShaped(s, leavers[1..]);
    }
  }

  lemma QuoteIsWorth(s: State, at: nat, shares: u64)
    requires Priceable(s) && at < |s.tranches| && shares <= s.tranches[at].totalShares
    ensures Quote(s, at, shares) == Ok(Worth(PoolOf(s), Exit(at, shares), VirtualOf(s)))
  {
    RedeemSucceeds(shares, s.tranches[at].allocation, s.tranches[at].totalShares, s.config.decimalsOffset);
  }

  lemma RedeemPaysQuote(s: State, at: nat, user: Pubkey, shares: u64)
    requires at < |s.tranches| && Redeem(s, at, user, shares, 0).Ok?
    ensures Quote(s, at, shares) == Ok(Redeem(s, at, user, shares, 0).value.assets)
  {}

  lemma CoversIff(s: State, e: Exit, paid: u64)
    requires e.at < |s.tranches| && paid <= s.tranches[e.at].allocation && e.shares <= s.tranches[e.at].totalShares
    ensures Covers(PoolOf(s), Subordinations(s.tranches), e, paid) <==> 0 < paid && Affordable(s, e.at, paid)
  {
    AffordableIff(s, e.at, paid);
  }

  /** One exit: committed exactly when payable, and then for its worth. */
  lemma ExitStep(s: State, l: Leaver)
    requires TrancheRuns.Valid(s) && Priceable(s) && !s.config.paused
    requires l.exit.at < |s.tranches| && 0 < l.exit.shares <= Get(s.tranches[l.exit.at].holdings, l.user)
    ensures var r := Redeem(s, l.exit.at, l.user, l.exit.shares, 0);
            && (r.Ok? <==> Payable(PoolOf(s), Subordinations(s.tranches), l.exit, VirtualOf(s)))
            && (r.Ok? ==> r.value.assets == Worth(PoolOf(s), l.exit, VirtualOf(s)))
  {
    var at, shares := l.exit.at, l.exit.shares;
    QuoteWithin(s, at, l.user, shares);
    QuoteIsWorth(s, at, shares);
    RedeemIff(s, at, l.user, shares, 0);
    CoversIff(s, l.exit, Quote(s, at, shares).value);
    if Redeem(s, at, l.user, shares, 0).Ok? {
      RedeemPaysQuote(s, at, l.user, shares);
    }
  }

  /** The tranche that pays, and no other, shrinks by the exit; its holder has that much less. */
  lemma ReleaseEffect(s: State, at: nat, user: Pubkey, assets: u64, shares: u64)
    requires at < |s.tranches| && Release(s, at, user, assets, shares).Ok?
    ensures var t := Release(s, at, user, assets, shares).value.state;
            && assets <= s.tranches[at].allocation && shares <= s.tranches[at].totalShares
            && t.config == s.config && |t.tranches| == |s.tranches|
            && t.totalAssets == s.totalAssets - assets && t.balance == s.balance - assets
            && PoolOf(t) == Pool(t.totalAssets,
                                 Allocations(s.tranches)[at := s.tranches[at].allocation - assets],
                                 Shares(s.tranches)[at := s.tranches[at].totalShares - shares])
            && Subordinations(t.tranches) == Subordinations(s.tranches)
            && (forall k, u | 0 <= k < |s.tranches| ::
                  Get(t.tranches[k].holdings, u) == Get(s.tranches[k].holdings, u) - (if k == at && u == user then shares else 0))
  {}

  lemma ExitEffect(s: State, l: Leaver, x: Commit)
    requires TrancheRuns.Valid(s) && Priceable(s) && Redeem(s, l.exit.at, l.user, l.exit.shares, 0) == Ok(x)
    requires l.exit.at < |s.tranches| && Payable(PoolOf(s), Subordinations(s.tranches), l.exit, VirtualOf(s))
    requires x.assets == Worth(PoolOf(s), l.exit, VirtualOf(s))
    ensures TrancheRuns.Valid(x.state) && Priceable(x.state) && x.state.config == s.config
    ensures Subordinations(x.state.tranches) == Subordinations(s.tranches)
    ensures PoolOf(x.state) == Pay(PoolOf(s), Subordinations(s.tranches), l.exit, VirtualOf(s))
    ensures x.state.balance == s.balance - x.assets
    ensures forall at, user | 0 <= at < |s.tranches| ::
              Get(x.state.tranches[at].holdings, user)
              == Get(s.tranches[at].holdings, user) - (if at == l.exit.at && user == l.user then l.exit.shares else 0)
  {
    var op := RedeemOp(l.exit.at, l.user, l.exit.shares, 0);
    TrancheRuns.ExchangeParts(s, op);
    ReleaseEffect(s, l.exit.at, l.user, x.assets, l.exit.shares);
    ExitValid(s, op, x);
    ReleasePriceable(s, l.exit.at, l.user, x.assets, l.exit.shares);
  }

  lemma ExitValid(s: State, op: Op, x: Commit)
    requires TrancheRuns.Valid(s) && Step(s, op) == Ok(x)
    ensures TrancheRuns.Valid(x.state)
  {
    StepValid(s, op);
  }

  lemma ReleasePriceable(s: State, at: nat, user: Pubkey, assets: u64, shares: u64)
    requires Priceable(s) && at < |s.tranches| && Release(s, at, user, assets, shares).Ok?
    ensures Priceable(Release(s, at, user, assets, shares).value.state)
  {
    var t := Release(s, at, user, assets, shares).value.state;
    forall i | 0 <= i < |t.tranches|
      ensures t.tranches[i].allocation < U64_MAX && t.tranches[i].totalShares + VirtualOf(t) <= U64_MAX
    {
      assert t.tranches[i].allocation <= s.tranches[i].allocation && t.tranches[i].totalShares <= s.tranches[i].totalShares;
    }
  }

  /** Every sequence of redeems within the holdings, from every reachable state, whatever losses were
      recorded and whatever tranche was rebalanced with itself before: it commits exactly when the pool
      can pay it exit by exit, leaves the pool so paid, and pays what the total falls by. */
  lemma {:induction false} ExitsIff(s: State, leavers: seq<Leaver>)
    requires TrancheRuns.Valid(s) && Priceable(s) && !s.config.paused && WithinHoldings(s, leavers)
    ensures Shaped(PoolOf(s), Subordinations(s.tranches), ExitsOf(leavers))
    ensures Run(s, Redeems(leavers)).Ok? <==> AllPayable(PoolOf(s), Subordinations(s.tranches), ExitsOf(leavers), VirtualOf(s))
    ensures Run(s, Redeems(leavers)).Ok? ==>
              var t := Run(s, Redeems(leavers)).value;
              && PoolOf(t) == PayAll(PoolOf(s), Subordinations(s.tranches), ExitsOf(leavers), VirtualOf(s))
              && s.balance - t.balance == s.totalAssets - t.totalAssets
    decreases |leavers|
  {
    ExitsShaped(s, leavers);
    if leavers != [] {
      var l := leavers[0];
      assert l in leavers;
      assert Leaving(leavers, l.exit.at, l.user) <= Get(s.tranches[l.exit.at].holdings, l.user);
      ExitStep(s, l);
      assert Redeems(leavers)[1..] == Redeems(leavers[1..]) && ExitsOf(leavers)[1..] == ExitsOf(leavers[1..]);
      var r := Redeem(s, l.exit.at, l.user, l.exit.shares, 0);
      if r.Ok? {
        ExitEffect(s, l, r.value);
        StillWithin(s, leavers, r.value.state);
        ExitsIff(r.value.state, leavers[1..]);
      }
    }
  }

  lemma StillWithin(s: State, leavers: seq<Leaver>, t: State)
    requires leavers != [] && WithinHoldings(s, leavers) && |t.tranches| == |s.tranches|
    requires var l := leavers[0];
             forall at, user | 0 <= at < |s.tranches| ::
               Get(t.tranches[at].holdings, user)
               == Get(s.tranches[at].holdings, user) - (if at == l.exit.at && user == l.user then l.exit.shares else 0)
    ensures WithinHoldings(t, leavers[1..])
  {
    forall at, user | 0 <= at < |t.tranches| ensures Leaving(leavers[1..], at, user) <= Get(t.tranches[at].holdings, user) {
      assert Leaving(leavers, at, user) <= Get(s.tranches[at].holdings, user);
    }
  }

  /** No exit is worth more than its tranche holds. */
  lemma WorthBelow(p: Pool, e: Exit, vs: nat)
    requires vs > 0 && e.at < |p.assets| == |p.shares| && e.shares <= p.shares[e.at]
    ensures Worth(p, e, vs) <= p.assets[e.at]
  {
    var a: int, d: int := p.assets[e.at], p.shares[e.at] + vs;
    ProductNonNegative(e.shares, a + 1);
    MulLess(e.shares, d, a + 1);
    CancelLess(Worth(p, e, vs), a + 1, d);
  }

  lemma UnsubordinatedProtects(p: Pool, bps: seq<u16>, at: nat, paid: u64)
    requires at < |p.assets| == |bps| && paid <= p.assets[at] && forall i | 0 <= i < |bps| :: bps[i] == 0
    ensures SeniorsFit(p.assets, bps, Total(p.assets) - p.total, p.total - paid, at)
    ensures JuniorsProtect(p.assets, bps, p.total - paid, at)
    ensures Summable(p.assets[at := p.assets[at] - paid], bps)
  {
    var excess, rest := Total(p.assets) - p.total, p.total - paid;
    TotalSplit(p.assets, at);
    TotalNonNegative(p.assets[at + 1..]);
    forall k | 0 <= k < at ensures Fits(p.assets, bps, excess, rest, k) {
      PrefixBelow(p.assets, k + 1, at);
      Undemanding(p.assets, bps, excess, rest, k);
    }
    forall k | at <= k < |bps| ensures Protects(p.assets, bps, rest, k) {
      Undemanding(p.assets, bps, excess, rest, k);
    }
  }

  /** Without subordination requirements an exit is refused exactly when it is worth nothing or more than
      the total, the latter only while the total is not the sum of the tranches. */
  lemma UnsubordinatedPayable(p: Pool, bps: seq<u16>, e: Exit, vs: nat)
    requires vs > 0 && e.at < |p.assets| == |p.shares| == |bps| && forall i | 0 <= i < |bps| :: bps[i] == 0
    requires e.shares <= p.shares[e.at]
    ensures Payable(p, bps, e, vs) <==> 0 < Worth(p, e, vs) <= p.total
    ensures p.total == Total(p.assets) ==> Worth(p, e, vs) <= p.total
  {
    WorthBelow(p, e, vs);
    UnsubordinatedProtects(p, bps, e.at, Worth(p, e, vs));
    TotalSplit(p.assets, e.at);
    TotalNonNegative(p.assets[..e.at]);
    TotalNonNegative(p.assets[e.at + 1..]);
  }

  lemma PrefixBelow(a: seq<u64>, i: nat, j: nat)
    requires i <= j <= |a|
    ensures Total(a[..i]) <= Total(a[..j])
  {
    assert a[..j] == a[..i] + a[i..j];
    TotalConcat(a[..i], a[i..j]);
    TotalNonNegative(a[i..j]);
  }
}
