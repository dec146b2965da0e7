/** Maturing the head of the queue into balances (CheckWithdraw in cmd/master/withdraw.go and
    GetDebt in cmd/master/api.go), as a function on the stored data. */
module Maturing {
  import opened GoTypes
  import opened Records
  import opened MapSums
  import opened Reals
  import opened Pplns
  import opened Rewards

  const ORPHAN_GRACE: u64 := 10

  /** The daemon's answer about the head's block. */
  datatype BlockAnswer = NoAnswer | Block(orphaned: bool, minerReward: Option<u64>)

  /** A float64 that may be 0/0. */
  datatype Multiplier = NotANumber | Times(factor: real)

  function Balances(info: map<Bytes, AddrInfo>): map<Bytes, u64> {
    map k | k in info :: info[k].balance
  }

  function Pendings(info: map<Bytes, AddrInfo>): map<Bytes, u64> {
    map k | k in info :: info[k].balancePending
  }

  /** The wallet's balance beyond what is owed, in coins; 0 when the wallet does not answer or is
      empty. */
  ghost function Debt(cfg: Config, info: map<Bytes, AddrInfo>, wallet: Option<u64>): real
    requires cfg.coin > 0.0
  {
    if wallet.None? || wallet.value < 1 then 0.0
    else (wallet.value - Wrap64(Sum(Balances(info))) - Wrap64(Sum(Pendings(info)))) as real / cfg.coin
  }

  function DebtFactor(debt: real): real {
    if debt > 50.0 then 2.0 else if debt < -10.0 then 0.5 else 1.0
  }

  /** minerReward / total, at most 1. A positive reward over 0 is infinite, so it is cut to 1. */
  function RewardRatio(minerReward: u64, total: u64): Multiplier {
    if total == 0 then (if minerReward == 0 then NotANumber else Times(1.0))
    else if minerReward as real / total as real > 1.0 then Times(1.0)
    else Times(minerReward as real / total as real)
  }

  function Scale(m: Multiplier, factor: real): Multiplier {
    match m
    case NotANumber => NotANumber
    case Times(r) => Times(r * factor)
  }

  function BlockMultiplier(minerReward: u64, total: u64, debt: real): Multiplier {
    Scale(RewardRatio(minerReward, total), DebtFactor(debt))
  }

  function Credit(cfg: Config, v: u64, m: Multiplier): u64 {
    match m
    case NotANumber => cfg.junk
    case Times(r) => ToUint64(cfg, v as real * r)
  }

  function Lookup(info: map<Bytes, AddrInfo>, k: Bytes): AddrInfo {
    if k in info then info[k] else AddrInfo(0, 0, 0)
  }

  function CreditInfo(cfg: Config, k: Bytes, old_: AddrInfo, x: u64): AddrInfo {
    if k in cfg.banned then old_.(balance := 0, balancePending := 0)
    else old_.(balance := Wrap64(old_.balance + x))
  }

  function MatureInfo(cfg: Config, info: map<Bytes, AddrInfo>, bals: map<Bytes, u64>, m: Multiplier): map<Bytes, AddrInfo> {
    map k | k in info.Keys + bals.Keys ::
      if k in bals then CreditInfo(cfg, k, Lookup(info, k), Credit(cfg, bals[k], m)) else info[k]
  }

  ghost function TotalMoney(tx: UnconfTx): u64 {
    Wrap64(Sum(tx.bals))
  }

  function DropHead(l: Ledger): Ledger
    requires l.pending.unconfirmedTxs != []
  {
    l.(pending := l.pending.(unconfirmedTxs := l.pending.unconfirmedTxs[1..]))
  }

  /** What one check does. Stay covers both "nothing to do" and the error returns. */
  datatype Verdict = Stay | Orphan | Mature(m: Multiplier)

  ghost function Judge(cfg: Config, height: u64, l: Ledger, block: BlockAnswer, wallet: Option<u64>): Verdict
    requires cfg.coin > 0.0
  {
    if l.pending.unconfirmedTxs == [] then Stay
    else
      var head := l.pending.unconfirmedTxs[0];
      if head.unlockHeight >= height then Stay
      else
        match block
        case NoAnswer => if Wrap64(head.unlockHeight + ORPHAN_GRACE) < height then Orphan else Stay
        case Block(orphaned, minerReward) =>
          if orphaned then Orphan
          else if minerReward.None? then Stay
          else Mature(BlockMultiplier(minerReward.value, TotalMoney(head), Debt(cfg, l.info, wallet)))
  }

  ghost function CheckLedger(cfg: Config, height: u64, l: Ledger, block: BlockAnswer, wallet: Option<u64>): Ledger
    requires cfg.coin > 0.0
  {
    match Judge(cfg, height, l, block, wallet)
    case Stay => l
    case Orphan => DropHead(l)
    case Mature(m) => DropHead(l).(info := MatureInfo(cfg, l.info, l.pending.unconfirmedTxs[0].bals, m))
  }

  // ----- what a matured block pays -----

  /** The amount credited to each address of a queue entry, before bans. */
  function Credits(cfg: Config, bals: map<Bytes, u64>, m: Multiplier): map<Bytes, u64> {
    map k | k in bals :: Credit(cfg, bals[k], m)
  }

  /** float64(v) * multiplier, before rounding. */
  function Scaled(v: nat, f: real): real {
    v as real * f
  }

  lemma CreditIsFloor(cfg: Config, v: u64, f: real)
    requires 0.0 <= f && Scaled(v, f) < TWO64 as real
    ensures Credit(cfg, v, Times(f)) == Scaled(v, f).Floor
    ensures Credit(cfg, v, Times(f)) as real <= Scaled(v, f)
  {
    ProductNonNegative(v as real, f);
  }

  lemma ScaledParts(bals: map<Bytes, u64>, k: Bytes, f: real)
    requires k in bals && 0.0 <= f
    ensures Scaled(Sum(bals), f) == Scaled(bals[k], f) + Scaled(Sum(bals - {k}), f)
    ensures 0.0 <= Scaled(bals[k], f) && 0.0 <= Scaled(Sum(bals - {k}), f)
  {
    hide Sum;
    SumRemove(bals, k);
    Distributes(bals[k] as real, Sum(bals - {k}) as real, f);
    ProductNonNegative(bals[k] as real, f);
    ProductNonNegative(Sum(bals - {k}) as real, f);
  }

  /** Scaled amounts, each rounded down, add up to at most the scaled total. */
  lemma {:induction false} CreditsBound(cfg: Config, bals: map<Bytes, u64>, f: real)
    requires 0.0 <= f && Scaled(Sum(bals), f) < TWO64 as real
    ensures Sum(Credits(cfg, bals, Times(f))) as real <= Scaled(Sum(bals), f)
    decreases |bals|
  {
    hide Credit, Sum, Credits, Scaled;
    if k :| k in bals {
      var rest := bals - {k};
      ScaledParts(bals, k, f);
      CreditsStep(cfg, bals, k, Times(f));
      SumUpdate(Credits(cfg, rest, Times(f)), k, Credit(cfg, bals[k], Times(f)));
      CreditsBound(cfg, rest, f);
      CreditIsFloor(cfg, bals[k], f);
    } else {
      MatureNone(cfg, map[], bals, Times(f));
      ScaledNonNegative(Sum(bals), f);
    }
  }

  lemma ScaledNonNegative(v: nat, f: real)
    requires 0.0 <= f
    ensures 0.0 <= Scaled(v, f)
  {
    ProductNonNegative(v as real, f);
  }

  lemma CreditsProfile(cfg: Config, bals: map<Bytes, u64>, f: real)
    requires 0.0 <= f && Scaled(Sum(bals), f) < TWO64 as real
    ensures Sum(Credits(cfg, bals, Times(f))) as real <= Scaled(Sum(bals), f)
    ensures forall k :: k in bals ==> Credits(cfg, bals, Times(f))[k] == Scaled(bals[k], f).Floor
    ensures f == 1.0 ==> Credits(cfg, bals, Times(f)) == bals
  {
    hide Sum, Credit, Scaled;
    CreditsBound(cfg, bals, f);
    forall k | k in bals
      ensures Credit(cfg, bals[k], Times(f)) == Scaled(bals[k], f).Floor
      ensures f == 1.0 ==> Credit(cfg, bals[k], Times(f)) == bals[k]
    {
      ScaledParts(bals, k, f);
      CreditIsFloor(cfg, bals[k], f);
      ScaledByOne(bals[k]);
    }
  }

  lemma ScaledByOne(v: nat)
    ensures Scaled(v, 1.0) == v as real
  {
  }

  /** factor * min(1, minerReward / total), and what it makes of the total. */
  lemma MultiplierRange(minerReward: u64, total: u64, debt: real)
    requires total > 0
    ensures var m := BlockMultiplier(minerReward, total, debt);
            && m.Times?
            && 0.0 <= m.factor <= DebtFactor(debt)
            && Scaled(total, m.factor) == DebtFactor(debt) * Min(minerReward, total) as real
            && Scaled(total, m.factor) <= Scaled(total, DebtFactor(debt))
            && (minerReward >= total && DebtFactor(debt) == 1.0 ==> m.factor == 1.0)
  {
    var r, t, f := minerReward as real, total as real, DebtFactor(debt);
    RatioFacts(r, t);
    if r <= t {
      var q := r / t;
      ProductMonotone(q, 1.0, f);
      ProductNonNegative(q, f);
      assert t * (q * f) == f * (q * t);
    }
    ProductMonotone(BlockMultiplier(minerReward, total, debt).factor, f, t);
  }

  /** Maturing credits in total at most factor * min(block reward, queued total), exactly the
      queued amounts when the multiplier is 1, and each address the floor of its scaled amount. */
  lemma MaturedWithinReward(cfg: Config, bals: map<Bytes, u64>, minerReward: u64, debt: real)
    requires 0 < Sum(bals) < TWO64
    requires Scaled(Sum(bals), DebtFactor(debt)) < TWO64 as real
    ensures var total := Wrap64(Sum(bals));
            var m := BlockMultiplier(minerReward, total, debt);
            && total == Sum(bals) && m.Times?
            && Sum(Credits(cfg, bals, m)) as real <= DebtFactor(debt) * Min(minerReward, total) as real
            && (forall k :: k in bals ==> Credits(cfg, bals, m)[k] == Scaled(bals[k], m.factor).Floor)
            && (minerReward >= total && DebtFactor(debt) == 1.0 ==> Credits(cfg, bals, m) == bals)
  {
    hide BlockMultiplier, DebtFactor, Sum, Wrap64, Credits, Credit, Scaled;
    WrapInRange(Sum(bals));
    MultiplierRange(minerReward, Sum(bals), debt);
    CreditsProfile(cfg, bals, BlockMultiplier(minerReward, Sum(bals), debt).factor);
  }

  // ----- the money held for the addresses -----

  /** Balance plus what has been paid, per address. */
  function Holdings(info: map<Bytes, AddrInfo>): map<Bytes, nat> {
    map k | k in info :: info[k].balance + info[k].paid
  }

  /** The part of a maturing that goes to banned addresses, old balances included. */
  function Confiscated(cfg: Config, info: map<Bytes, AddrInfo>, bals: map<Bytes, u64>, m: Multiplier): map<Bytes, nat> {
    map k | k in bals && k in cfg.banned :: Lookup(info, k).balance + Credit(cfg, bals[k], m)
  }

  lemma MatureStep(cfg: Config, info: map<Bytes, AddrInfo>, bals: map<Bytes, u64>, k: Bytes, m: Multiplier)
    requires k in bals
    ensures MatureInfo(cfg, info, bals, m)
         == MatureInfo(cfg, info, bals - {k}, m)[k := CreditInfo(cfg, k, Lookup(info, k), Credit(cfg, bals[k], m))]
    ensures Lookup(MatureInfo(cfg, info, bals - {k}, m), k) == Lookup(info, k)
  {
    hide Credit, CreditInfo;
  }

  lemma CreditsStep(cfg: Config, bals: map<Bytes, u64>, k: Bytes, m: Multiplier)
    requires k in bals
    ensures Credits(cfg, bals, m) == Credits(cfg, bals - {k}, m)[k := Credit(cfg, bals[k], m)]
    ensures k !in Credits(cfg, bals - {k}, m)
  {
    hide Credit;
  }

  lemma ConfiscatedStep(cfg: Config, info: map<Bytes, AddrInfo>, bals: map<Bytes, u64>, k: Bytes, m: Multiplier)
    requires k in bals
    ensures Confiscated(cfg, info, bals, m)
         == if k in cfg.banned
            then Confiscated(cfg, info, bals - {k}, m)[k := Lookup(info, k).balance + Credit(cfg, bals[k], m)]
            else Confiscated(cfg, info, bals - {k}, m)
    ensures k !in Confiscated(cfg, info, bals - {k}, m)
  {
    hide Credit, Lookup;
  }

  lemma HoldingsUpdate(info: map<Bytes, AddrInfo>, k: Bytes, x: AddrInfo)
    ensures Sum(Holdings(info[k := x]))
         == Sum(Holdings(info)) - (Lookup(info, k).balance + Lookup(info, k).paid) + (x.balance + x.paid)
  {
    hide Sum;
    assert Holdings(info[k := x]) == Holdings(info)[k := x.balance + x.paid];
    SumUpdate(Holdings(info), k, x.balance + x.paid);
  }

  /** As long as everything held stays below 2^64, holdings grow by exactly the credits minus what
      is taken from banned addresses: no balance wraps around. */
  lemma {:induction false} MatureHoldings(cfg: Config, info: map<Bytes, AddrInfo>, bals: map<Bytes, u64>, m: Multiplier)
    requires Sum(Holdings(info)) + Sum(Credits(cfg, bals, m)) < TWO64
    ensures Sum(Holdings(MatureInfo(cfg, info, bals, m))) + Sum(Confiscated(cfg, info, bals, m))
         == Sum(Holdings(info)) + Sum(Credits(cfg, bals, m))
    decreases |bals|
  {
    hide Credit, Sum, Wrap64, MatureInfo, Confiscated, Holdings, Credits;
    if k :| k in bals {
      var rest := bals - {k};
      var x, old_ := Credit(cfg, bals[k], m), Lookup(info, k);
      MatureStep(cfg, info, bals, k, m);
      CreditsStep(cfg, bals, k, m);
      ConfiscatedStep(cfg, info, bals, k, m);
      SumUpdate(Credits(cfg, rest, m), k, x);
      MatureHoldings(cfg, info, rest, m);
      HoldingsUpdate(MatureInfo(cfg, info, rest, m), k, CreditInfo(cfg, k, old_, x));
      SumUpdate(Confiscated(cfg, info, rest, m), k, old_.balance + x);
      HeldBy(info, k);
      WrapInRange(old_.balance + x);
    } else {
      MatureNone(cfg, info, bals, m);
    }
  }

  lemma HeldBy(info: map<Bytes, AddrInfo>, k: Bytes)
    ensures Lookup(info, k).balance + Lookup(info, k).paid <= Sum(Holdings(info))
  {
    SumAtLeast(Holdings(info), k);
  }

  lemma MatureNone(cfg: Config, info: map<Bytes, AddrInfo>, bals: map<Bytes, u64>, m: Multiplier)
    requires forall k :: k !in bals
    ensures MatureInfo(cfg, info, bals, m) == info
    ensures Sum(Credits(cfg, bals, m)) == 0 && Sum(Confiscated(cfg, info, bals, m)) == 0
  {
    assert Credits(cfg, bals, m) == map[] && Confiscated(cfg, info, bals, m) == map[];
  }
}
