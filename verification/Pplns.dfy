/** One coinbase reward split over the shares in the PPLNS window (cmd/master/updater.go).
    float64 amounts are exact reals here; a conversion Go leaves undefined yields cfg.junk. */
module Pplns {
  import opened GoTypes
  import opened Records
  import opened MapSums
  import opened Reals

  datatype Config = Config(
    feePercent: real,
    feeAddress: Bytes,
    poolAddress: Bytes,
    minConfs: u64,
    minWithdrawal: u64,   // in atomic units
    withdrawalFee: u64,   // in atomic units
    coin: real,
    banned: seq<Bytes>,
    junk: u64)

  predicate ValidConfig(cfg: Config) {
    0.0 <= cfg.feePercent <= 100.0 && cfg.coin > 0.0
  }

  /** A reading of GetPplnsWindow() and util.Time(). */
  datatype Clock = Clock(window: u64, now: u64)

  /** uint64(r) for a float64 r. */
  function ToUint64(cfg: Config, r: real): u64 {
    if -1.0 < r < TWO64 as real then
      var n := r.Floor;
      if n < 0 then 0 else n
    else cfg.junk
  }

  // ----- the pass over the share bucket; None is a record whose bytes do not decode -----

  predicate Live(sh: Share, clock: Clock) {
    !(Wrap64(sh.time + clock.window) < clock.now)
  }

  predicate Counts(rec: Option<Share>, clock: Clock) {
    rec.Some? && Live(rec.value, clock)
  }

  /** What the pass leaves in the bucket: everything but the outdated shares. */
  function Pruned(shares: seq<Option<Share>>, clock: Clock): seq<Option<Share>> {
    if shares == [] then []
    else
      var n := |shares| - 1;
      if shares[n].None? || Live(shares[n].value, clock)
      then Pruned(shares[..n], clock) + [shares[n]]
      else Pruned(shares[..n], clock)
  }

  /** Difficulty per wallet over the live shares. */
  function MinersTotals(shares: seq<Option<Share>>, clock: Clock): map<Bytes, nat> {
    if shares == [] then map[]
    else
      var n := |shares| - 1;
      var before := MinersTotals(shares[..n], clock);
      if Counts(shares[n], clock)
      then before[shares[n].value.wallet := Get(before, shares[n].value.wallet) + shares[n].value.diff]
      else before
  }

  method ScanShares(shares: seq<Option<Share>>, clock: Clock)
    returns (kept: seq<Option<Share>>, minersTotalHashes: map<Bytes, nat>, totHashes: nat)
    ensures kept == Pruned(shares, clock)
    ensures minersTotalHashes == MinersTotals(shares, clock)
    ensures totHashes == Sum(minersTotalHashes)
  {
    kept, minersTotalHashes, totHashes := [], map[], 0;
    for i := 0 to |shares|
      invariant kept == Pruned(shares[..i], clock)
      invariant minersTotalHashes == MinersTotals(shares[..i], clock)
      invariant totHashes == Sum(minersTotalHashes)
    {
      assert shares[..i + 1][..i] == shares[..i];
      if shares[i].None? {
        kept := kept + [shares[i]];
        continue;
      }
      var sh := shares[i].value;
      if Wrap64(sh.time + clock.window) < clock.now {
        continue;
      }
      kept := kept + [shares[i]];
      SumUpdate(minersTotalHashes, sh.wallet, Get(minersTotalHashes, sh.wallet) + sh.diff);
      totHashes := totHashes + sh.diff;
      minersTotalHashes := minersTotalHashes[sh.wallet := Get(minersTotalHashes, sh.wallet) + sh.diff];
    }
    assert shares[..|shares|] == shares;
  }

  // ----- the split -----

  function RewardAfterFee(cfg: Config, reward: u64): real {
    reward as real * (100.0 - cfg.feePercent) / 100.0
  }

  /** v * reward / totHashes, before rounding. */
  function Exact(v: nat, tot: nat, reward: real): real
    requires tot > 0
  {
    v as real * reward / tot as real
  }

  /** uint64(v * reward / totHashes); 0/0 when no share carries any difficulty. */
  function Portion(cfg: Config, v: nat, tot: nat, reward: real): u64 {
    if tot == 0 then cfg.junk else ToUint64(cfg, Exact(v, tot, reward))
  }

  function MinerPortions(cfg: Config, reward: real, totals: map<Bytes, nat>, tot: nat): map<Bytes, u64> {
    map w | w in totals :: Portion(cfg, totals[w], tot, reward)
  }

  /** Every miner's portion, then whatever is left on top for the fee address. */
  ghost function Split(cfg: Config, reward: u64, totals: map<Bytes, nat>, tot: nat): map<Bytes, u64> {
    var miners := MinerPortions(cfg, RewardAfterFee(cfg, reward), totals, tot);
    var left := Wrap64(reward - Wrap64(Sum(miners)));
    miners[cfg.feeAddress := Wrap64(Get(miners, cfg.feeAddress) + left)]
  }

  /** totalPendings with the miners' portions added. */
  function WithPortions(pendings: map<Bytes, u64>, miners: map<Bytes, u64>): map<Bytes, u64> {
    map w | w in pendings.Keys + miners.Keys :: Wrap64(Get(pendings, w) + Get(miners, w))
  }

  /** totalPendings after this coinbase: the miners' portions, then the fee address' entry. */
  function AddPendings(cfg: Config, pendings: map<Bytes, u64>, miners: map<Bytes, u64>, feeEntry: u64): map<Bytes, u64> {
    var withMiners := WithPortions(pendings, miners);
    withMiners[cfg.feeAddress := Wrap64(Get(withMiners, cfg.feeAddress) + feeEntry)]
  }

  ghost function PendingsAfter(cfg: Config, pendings: map<Bytes, u64>, reward: u64, totals: map<Bytes, nat>, tot: nat)
    : map<Bytes, u64>
  {
    AddPendings(cfg, pendings, MinerPortions(cfg, RewardAfterFee(cfg, reward), totals, tot),
                Split(cfg, reward, totals, tot)[cfg.feeAddress])
  }

  lemma WithPortionsStep(pendings: map<Bytes, u64>, miners: map<Bytes, u64>, i: Bytes, x: u64)
    requires i !in miners
    ensures var before := WithPortions(pendings, miners);
            WithPortions(pendings, miners[i := x]) == before[i := Wrap64(Get(before, i) + x)]
  {
    hide Wrap64;
    WrapSum(Get(pendings, i), x);
    WrapInRange(Get(pendings, i));
  }

  /** The range loop over the miners. */
  method PayMiners(cfg: Config, afterFee: real, minersTotalHashes: map<Bytes, nat>, totHashes: nat, pendings: map<Bytes, u64>)
    returns (bals: map<Bytes, u64>, totalPendings: map<Bytes, u64>, totalRewarded: u64)
    ensures bals == MinerPortions(cfg, afterFee, minersTotalHashes, totHashes)
    ensures totalPendings == WithPortions(pendings, bals)
    ensures totalRewarded == Wrap64(Sum(bals))
  {
    hide Portion, WithPortions, Wrap64;
    bals, totalPendings, totalRewarded := map[], pendings, 0;
    WithPortionsOfNone(pendings);
    var left := minersTotalHashes.Keys;
    while left != {}
      invariant left <= minersTotalHashes.Keys
      invariant bals == map w | w in minersTotalHashes && w !in left :: Portion(cfg, minersTotalHashes[w], totHashes, afterFee)
      invariant totalPendings == WithPortions(pendings, bals)
      invariant totalRewarded == Wrap64(Sum(bals))
      decreases left
    {
      var i :| i in left;
      var x := Portion(cfg, minersTotalHashes[i], totHashes, afterFee);
      SumUpdate(bals, i, x);
      WithPortionsStep(pendings, bals, i, x);
      WrapSum(Sum(bals), x);
      bals := bals[i := x];
      totalPendings := totalPendings[i := Wrap64(Get(totalPendings, i) + x)];
      totalRewarded := Wrap64(totalRewarded + x);
      left := left - {i};
    }
  }

  lemma WithPortionsOfNone(pendings: map<Bytes, u64>)
    ensures WithPortions(pendings, map[]) == pendings
    ensures Wrap64(0) == 0
  {
  }

  method SplitReward(cfg: Config, reward: u64, minersTotalHashes: map<Bytes, nat>, totHashes: nat, pendings: map<Bytes, u64>)
    returns (bals: map<Bytes, u64>, totalPendings: map<Bytes, u64>)
    ensures bals == Split(cfg, reward, minersTotalHashes, totHashes)
    ensures totalPendings == PendingsAfter(cfg, pendings, reward, minersTotalHashes, totHashes)
  {
    hide Wrap64, MinerPortions, RewardAfterFee, WithPortions;
    var totalRewarded: u64;
    bals, totalPendings, totalRewarded :=
      PayMiners(cfg, RewardAfterFee(cfg, reward), minersTotalHashes, totHashes, pendings);
    bals := bals[cfg.feeAddress := Wrap64(Get(bals, cfg.feeAddress) + Wrap64(reward - totalRewarded))];
    totalPendings := totalPendings[cfg.feeAddress := Wrap64(Get(totalPendings, cfg.feeAddress) + bals[cfg.feeAddress])];
  }

  // ----- the split is exact and fair -----

  /** Without any assumption the entries add up to the reward modulo 2^64. */
  lemma SplitSumsModulo(cfg: Config, reward: u64, totals: map<Bytes, nat>, tot: nat)
    ensures Wrap64(Sum(Split(cfg, reward, totals, tot))) == reward
  {
    hide Wrap64, MinerPortions, RewardAfterFee;
    var miners := MinerPortions(cfg, RewardAfterFee(cfg, reward), totals, tot);
    var own, sum := Get(miners, cfg.feeAddress), Sum(miners);
    var left := Wrap64(reward - Wrap64(sum));
    var entry := Wrap64(own + left);
    SumAtLeast(miners, cfg.feeAddress);
    calc {
      Wrap64(Sum(Split(cfg, reward, totals, tot)));
      { SumUpdate(miners, cfg.feeAddress, entry); }
      Wrap64(entry + (sum - own));
      { WrapSum(own + left, sum - own); }
      Wrap64(left + sum);
      { WrapSum(sum, reward); WrapSum(reward - sum, sum); }
      Wrap64(reward);
      { WrapInRange(reward); }
      reward;
    }
  }

  lemma ExactBounds(v: nat, tot: nat, r: real)
    requires 0 < tot && v <= tot && r >= 0.0
    ensures 0.0 <= Exact(v, tot, r) <= r
    ensures v == tot ==> Exact(v, tot, r) == r
    ensures v == 0 ==> Exact(v, tot, r) == 0.0
  {
    assert 0.0 <= v as real * r <= r * tot as real;
    DivideBounds(v as real * r, tot as real, r);
  }

  lemma ExactAdds(v: nat, w: nat, tot: nat, r: real)
    requires tot > 0
    ensures Exact(v + w, tot, r) == Exact(v, tot, r) + Exact(w, tot, r)
  {
    var t := tot as real;
    var x, y := v as real * r, w as real * r;
    assert (v + w) as real * r == x + y;
    assert (x + y) / t == x / t + y / t;
  }

  /** Rounding each portion down loses less than one unit a miner. */
  lemma {:induction false} PortionsBound(cfg: Config, r: real, totals: map<Bytes, nat>, tot: nat)
    requires tot > 0 && 0.0 <= r < TWO64 as real
    requires Sum(totals) <= tot
    ensures var exact := Exact(Sum(totals), tot, r);
            var paid := Sum(MinerPortions(cfg, r, totals, tot)) as real;
            paid <= exact && (if totals == map[] then paid == exact else paid > exact - |totals| as real)
    decreases |totals|
  {
    hide Exact;
    var miners := MinerPortions(cfg, r, totals, tot);
    if w :| w in totals {
      var rest := totals - {w};
      SumRemove(totals, w);
      SumRemove(miners, w);
      assert miners - {w} == MinerPortions(cfg, r, rest, tot);
      PortionsBound(cfg, r, rest, tot);
      ExactAdds(Sum(rest), totals[w], tot, r);
      ExactBounds(totals[w], tot, r);
      assert |rest| == |totals| - 1;
      assert miners[w] == Exact(totals[w], tot, r).Floor;
    } else {
      assert totals == map[] && miners == map[];
      ExactBounds(0, tot, r);
    }
  }

  lemma AfterFeeInRange(cfg: Config, reward: u64)
    requires ValidConfig(cfg)
    ensures 0.0 <= RewardAfterFee(cfg, reward) <= reward as real
    ensures reward as real - RewardAfterFee(cfg, reward) == reward as real * cfg.feePercent / 100.0
  {
    var r, f := reward as real, cfg.feePercent;
    Distributes(100.0 - f, f, r);
    ProductNonNegative(r, f);
    ProductNonNegative(r, 100.0 - f);
    assert r * (100.0 - f) == 100.0 * r - r * f;
  }

  /** The miners together get at most the reward after the fee, so the subtraction that leaves
      the rest to the fee address never underflows. */
  lemma MinersWithinReward(cfg: Config, reward: u64, totals: map<Bytes, nat>)
    requires ValidConfig(cfg)
    requires totals == map[] || Sum(totals) > 0
    ensures var r := RewardAfterFee(cfg, reward);
            var paid := Sum(MinerPortions(cfg, r, totals, Sum(totals))) as real;
            paid <= r && (totals != map[] ==> paid > r - |totals| as real)
  {
    hide RewardAfterFee, Exact;
    var r, tot := RewardAfterFee(cfg, reward), Sum(totals);
    AfterFeeInRange(cfg, reward);
    if totals == map[] {
      assert MinerPortions(cfg, r, totals, tot) == map[];
    } else {
      PortionsBound(cfg, r, totals, tot);
      ExactBounds(tot, tot, r);
    }
  }

  /** A miner's portion is the floor of the exact one. */
  lemma PortionIsFloor(cfg: Config, v: nat, tot: nat, r: real)
    requires 0 < tot && v <= tot && 0.0 <= r < TWO64 as real
    ensures Portion(cfg, v, tot, r) == Exact(v, tot, r).Floor
  {
    ExactBounds(v, tot, r);
  }

  /** The floor of the proportional part of the reward after the fee; 0 for who is no miner. */
  function FairPart(cfg: Config, reward: u64, totals: map<Bytes, nat>, tot: nat, w: Bytes): int {
    if w in totals && tot > 0 then Exact(totals[w], tot, RewardAfterFee(cfg, reward)).Floor else 0
  }

  lemma FairParts(cfg: Config, reward: u64, totals: map<Bytes, nat>, w: Bytes)
    requires ValidConfig(cfg)
    requires totals == map[] || Sum(totals) > 0
    ensures Get(MinerPortions(cfg, RewardAfterFee(cfg, reward), totals, Sum(totals)), w)
         == FairPart(cfg, reward, totals, Sum(totals), w)
  {
    hide RewardAfterFee, Exact;
    if w in totals {
      AfterFeeInRange(cfg, reward);
      SumAtLeast(totals, w);
      PortionIsFloor(cfg, totals[w], Sum(totals), RewardAfterFee(cfg, reward));
    }
  }

  /** With some difficulty recorded (or no share at all) the split is exact: the amounts sum to
      the block reward, each miner other than the fee address gets the floor of its proportional
      part, and the fee address gets on top of its own part at least the fee and less than the
      fee plus one unit a miner. */
  lemma SplitIsExactAndFair(cfg: Config, reward: u64, totals: map<Bytes, nat>)
    requires ValidConfig(cfg)
    requires totals == map[] || Sum(totals) > 0
    ensures var tot := Sum(totals);
            var bals := Split(cfg, reward, totals, tot);
            var fee := reward as real * cfg.feePercent / 100.0;
            && Sum(bals) == reward
            && bals.Keys == totals.Keys + {cfg.feeAddress}
            && (forall w :: w in totals && w != cfg.feeAddress ==> bals[w] == FairPart(cfg, reward, totals, tot, w))
            && var extra := (bals[cfg.feeAddress] - FairPart(cfg, reward, totals, tot, cfg.feeAddress)) as real;
               && fee <= extra
               && (totals == map[] ==> bals[cfg.feeAddress] == reward)
               && (totals != map[] ==> extra < fee + |totals| as real)
  {
    hide RewardAfterFee, FairPart, MinerPortions, Wrap64, Split;
    var r, tot := RewardAfterFee(cfg, reward), Sum(totals);
    var miners := MinerPortions(cfg, r, totals, tot);
    MinerPortionsKeys(cfg, r, totals, tot);
    AfterFeeInRange(cfg, reward);
    MinersWithinReward(cfg, reward, totals);
    SplitWithoutWrap(cfg, reward, totals, tot);
    forall w
      ensures Get(miners, w) == FairPart(cfg, reward, totals, tot, w)
    {
      FairParts(cfg, reward, totals, w);
    }
  }

  /** When the miners' portions fit the reward, no subtraction or addition wraps around. */
  lemma SplitWithoutWrap(cfg: Config, reward: u64, totals: map<Bytes, nat>, tot: nat)
    requires Sum(MinerPortions(cfg, RewardAfterFee(cfg, reward), totals, tot)) <= reward
    ensures var miners := MinerPortions(cfg, RewardAfterFee(cfg, reward), totals, tot);
            var bals := Split(cfg, reward, totals, tot);
            && bals.Keys == miners.Keys + {cfg.feeAddress}
            && (forall w :: w in miners && w != cfg.feeAddress ==> bals[w] == miners[w])
            && bals[cfg.feeAddress] == Get(miners, cfg.feeAddress) + (reward - Sum(miners))
            && Sum(bals) == reward
  {
    hide Wrap64, MinerPortions, RewardAfterFee;
    var miners := MinerPortions(cfg, RewardAfterFee(cfg, reward), totals, tot);
    var entry := Get(miners, cfg.feeAddress) + (reward - Sum(miners));
    SumAtLeast(miners, cfg.feeAddress);
    WrapInRange(Sum(miners));
    WrapInRange(reward - Sum(miners));
    WrapInRange(entry);
    SumUpdate(miners, cfg.feeAddress, entry);
  }

  lemma MinerPortionsKeys(cfg: Config, r: real, totals: map<Bytes, nat>, tot: nat)
    ensures MinerPortions(cfg, r, totals, tot).Keys == totals.Keys
  {
  }
}
