/** What becomes of the head of the queue, in terms of the daemon's and the wallet's answers: when it
    is paid, when it is dropped, and how much each address gets. */
module MaturityRuns {
  import opened GoTypes
  import opened Records
  import opened MapSums
  import opened Reals
  import opened Pplns
  import opened Rewards
  import opened Maturing
  import opened LedgerRuns
  import opened QueueRuns

  // ----- the two ways out of the queue -----

  predicate PastUnlock(height: u64, l: Ledger) {
    l.pending.unconfirmedTxs != [] && l.pending.unconfirmedTxs[0].unlockHeight < height
  }

  /** The daemon knows the head's block, which is not orphaned and has a reward. */
  predicate IsPaid(height: u64, l: Ledger, block: BlockAnswer) {
    PastUnlock(height, l) && block.Block? && !block.orphaned && block.minerReward.Some?
  }

  /** The block is orphaned, or there is no answer more than ten blocks later. */
  predicate IsLost(height: u64, l: Ledger, block: BlockAnswer) {
    && PastUnlock(height, l)
    && ((block.Block? && block.orphaned)
        || (block.NoAnswer? && (l.pending.unconfirmedTxs[0].unlockHeight + 10) % TWO64 < height))
  }

  // ----- how much -----

  /** What the wallet holds beyond all balances and pending balances, in coins. */
  ghost function WalletSurplus(cfg: Config, info: map<Bytes, AddrInfo>, wallet: Option<u64>): real
    requires cfg.coin > 0.0
  {
    if wallet.None? || wallet.value == 0 then 0.0
    else
      var balances: map<Bytes, nat> := map k | k in info :: info[k].balance;
      var pendings: map<Bytes, nat> := map k | k in info :: info[k].balancePending;
      (wallet.value - Sum(balances) % TWO64 - Sum(pendings) % TWO64) as real / cfg.coin
  }

  /** A surplus above 50 coins doubles a block, one below -10 halves it. */
  function FactorOf(surplus: real): real {
    if surplus > 50.0 then 2.0 else if surplus < -10.0 then 0.5 else 1.0
  }

  /** The part of the block's reward that is there of what was queued, at most all. */
  function RatioOf(reward: u64, total: nat): real
    requires total > 0
  {
    if reward >= total then 1.0 else reward as real / total as real
  }

  function AmountOf(v: nat, reward: u64, total: nat, factor: real): int
    requires total > 0
  {
    Product(v, MultiplierOf(reward, total, factor)).Floor
  }

  function MultiplierOf(reward: u64, total: nat, factor: real): real
    requires total > 0
  {
    RatioOf(reward, total) * factor
  }

  function Product(v: nat, f: real): real {
    v as real * f
  }

  function Old(info: map<Bytes, AddrInfo>, k: Bytes): AddrInfo {
    if k in info then info[k] else AddrInfo(0, 0, 0)
  }

  /** The addresses after an entry is paid: each one it names gets its amount, banned ones are emptied,
      all others stay. */
  ghost predicate PaidOut(cfg: Config, before: map<Bytes, AddrInfo>, after: map<Bytes, AddrInfo>, bals: map<Bytes, u64>,
                          reward: u64, factor: real) {
    && after.Keys == before.Keys + bals.Keys
    && (forall k :: k in before && k !in bals ==> after[k] == before[k])
    && (forall k :: k in bals && k in cfg.banned ==> after[k] == AddrInfo(0, 0, Old(before, k).paid))
    && (forall k :: k in bals && k !in cfg.banned ==>
          after[k].balancePending == Old(before, k).balancePending && after[k].paid == Old(before, k).paid)
    && (0 < Sum(bals) && 2 * Sum(bals) < TWO64 ==>
          forall k :: k in bals && k !in cfg.banned ==>
            after[k].balance == (Old(before, k).balance + AmountOf(bals[k], reward, Sum(bals), factor)) % TWO64)
  }

  lemma SurplusIsDebt(cfg: Config, info: map<Bytes, AddrInfo>, wallet: Option<u64>)
    requires cfg.coin > 0.0
    ensures WalletSurplus(cfg, info, wallet) == Debt(cfg, info, wallet)
    ensures FactorOf(WalletSurplus(cfg, info, wallet)) == DebtFactor(Debt(cfg, info, wallet))
  {
    hide Sum;
    if wallet.Some? {
      var balances: map<Bytes, nat> := map k | k in info :: info[k].balance;
      var pendings: map<Bytes, nat> := map k | k in info :: info[k].balancePending;
      assert balances == Balances(info) && pendings == Maturing.Pendings(info);
    }
  }

  lemma RatioIs(reward: u64, total: u64, debt: real)
    requires total > 0
    ensures BlockMultiplier(reward, total, debt) == Times(MultiplierOf(reward, total, DebtFactor(debt)))
  {
    hide DebtFactor;
    RatioFacts(reward as real, total as real);
  }

  lemma CreditIsAmount(cfg: Config, bals: map<Bytes, u64>, k: Bytes, reward: u64, debt: real)
    requires 0 < Sum(bals) && 2 * Sum(bals) < TWO64 && k in bals
    ensures Credit(cfg, bals[k], BlockMultiplier(reward, Wrap64(Sum(bals)), debt))
         == AmountOf(bals[k], reward, Sum(bals), DebtFactor(debt))
  {
    hide BlockMultiplier, Sum, Wrap64, Credit, MultiplierOf, DebtFactor, Credits, Scaled, Product;
    var total := Sum(bals);
    WrapInRange(total);
    RatioIs(reward, total, debt);
    FactorRange(debt);
    ScaledFits(total, DebtFactor(debt));
    MaturedWithinReward(cfg, bals, reward, debt);
    CreditsAt(cfg, bals, k, BlockMultiplier(reward, total, debt));
    ProductIs(bals[k], MultiplierOf(reward, total, DebtFactor(debt)));
  }

  lemma ScaledFits(total: nat, f: real)
    requires f <= 2.0 && 2 * total < TWO64
    ensures Scaled(total, f) < TWO64 as real
  {
    ProductMonotone(f, 2.0, total as real);
    assert 2.0 * total as real == (2 * total) as real;
    assert Scaled(total, f) == f * total as real;
  }

  lemma ProductIs(v: nat, f: real)
    ensures Product(v, f) == Scaled(v, f)
  {
  }

  lemma FactorRange(debt: real)
    ensures DebtFactor(debt) <= 2.0
  {
  }

  lemma CreditsAt(cfg: Config, bals: map<Bytes, u64>, k: Bytes, m: Multiplier)
    requires k in bals
    ensures Credits(cfg, bals, m)[k] == Credit(cfg, bals[k], m)
  {
  }

  lemma MaturePays(cfg: Config, info: map<Bytes, AddrInfo>, bals: map<Bytes, u64>, reward: u64, wallet: Option<u64>)
    requires ValidConfig(cfg)
    ensures PaidOut(cfg, info, MatureInfo(cfg, info, bals, BlockMultiplier(reward, Wrap64(Sum(bals)), Debt(cfg, info, wallet))), bals,
                    reward, FactorOf(WalletSurplus(cfg, info, wallet)))
  {
    hide BlockMultiplier, Sum, Wrap64, Credit, Debt, DebtFactor, AmountOf, WalletSurplus, FactorOf;
    SurplusIsDebt(cfg, info, wallet);
    var debt := Debt(cfg, info, wallet);
    var m := BlockMultiplier(reward, Wrap64(Sum(bals)), debt);
    forall k | k in bals && 0 < Sum(bals) && 2 * Sum(bals) < TWO64
      ensures Credit(cfg, bals[k], m) == AmountOf(bals[k], reward, Sum(bals), FactorOf(WalletSurplus(cfg, info, wallet)))
    {
      CreditIsAmount(cfg, bals, k, reward, debt);
    }
    forall k | k in bals
      ensures Wrap64(Old(info, k).balance + Credit(cfg, bals[k], m)) == (Old(info, k).balance + Credit(cfg, bals[k], m)) % TWO64
    {
      Remainder(Old(info, k).balance + Credit(cfg, bals[k], m));
    }
  }

  lemma Remainder(x: int)
    ensures Wrap64(x) == x % TWO64
  {
  }

  // ----- one check -----

  function WithoutHead(l: Ledger): PendingBals
    requires l.pending.unconfirmedTxs != []
  {
    PendingBals(l.pending.lastHeight, l.pending.unconfirmedTxs[1..])
  }

  /** A check pays the head and takes it off the queue, drops it unpaid, or changes nothing: exactly
      when and how much. */
  lemma CheckExactly(cfg: Config, height: u64, l: Ledger, block: BlockAnswer, wallet: Option<u64>)
    requires ValidConfig(cfg)
    ensures var l' := CheckLedger(cfg, height, l, block, wallet);
            && (IsPaid(height, l, block) ==>
                  && l'.pending == WithoutHead(l) && l'.shares == l.shares
                  && PaidOut(cfg, l.info, l'.info, l.pending.unconfirmedTxs[0].bals, block.minerReward.value,
                             FactorOf(WalletSurplus(cfg, l.info, wallet))))
            && (IsLost(height, l, block) ==> l' == Ledger(WithoutHead(l), l.info, l.shares))
            && (!IsPaid(height, l, block) && !IsLost(height, l, block) ==> l' == l)
  {
    hide MatureInfo, Debt, BlockMultiplier, Sum, PaidOut, WalletSurplus, FactorOf, Wrap64;
    if PastUnlock(height, l) {
      Remainder(l.pending.unconfirmedTxs[0].unlockHeight + 10);
      if IsPaid(height, l, block) {
        MaturePays(cfg, l.info, l.pending.unconfirmedTxs[0].bals, block.minerReward.value, wallet);
      }
    }
  }

  // ----- whole runs -----

  /** The entries paid, in the order in which they left the queue. */
  ghost function PaidEntries(cfg: Config, steps: seq<Step>): seq<UnconfTx>
    requires ValidConfig(cfg)
  {
    if steps == [] then []
    else
      var w, s := Run(cfg, steps[..|steps| - 1]), steps[|steps| - 1];
      PaidEntries(cfg, steps[..|steps| - 1])
        + if s.Check? && IsPaid(s.height, w.ledger, s.block) then [w.ledger.pending.unconfirmedTxs[0]] else []
  }

  ghost function LostEntries(cfg: Config, steps: seq<Step>): seq<UnconfTx>
    requires ValidConfig(cfg)
  {
    if steps == [] then []
    else
      var w, s := Run(cfg, steps[..|steps| - 1]), steps[|steps| - 1];
      LostEntries(cfg, steps[..|steps| - 1])
        + if s.Check? && IsLost(s.height, w.ledger, s.block) then [w.ledger.pending.unconfirmedTxs[0]] else []
  }

  /** What one step takes off the queue, and how it is booked. */
  lemma LeavesExactly(cfg: Config, w: World, s: Step)
    requires ValidConfig(cfg)
    ensures var w' := After(cfg, w, s);
            var paid := s.Check? && IsPaid(s.height, w.ledger, s.block);
            var lost := s.Check? && IsLost(s.height, w.ledger, s.block);
            var head := if paid || lost then [w.ledger.pending.unconfirmedTxs[0]] else [];
            && w'.removed == w.removed + head
            && w'.matured == w.matured + (if paid then Sum(head[0].bals) else 0)
            && w'.orphaned == w.orphaned + (if lost then Sum(head[0].bals) else 0)
            && w.ledger.pending.unconfirmedTxs <= head + w'.ledger.pending.unconfirmedTxs
  {
    hide CreditAll, Credited, SortByHeight, MatureInfo, Credits, Confiscated, Debt, BlockMultiplier, Sum, Wrap64, NextMinHeight;
    if s.Check? {
      if PastUnlock(s.height, w.ledger) { Remainder(w.ledger.pending.unconfirmedTxs[0].unlockHeight + 10); }
    } else if s.Update? {
      var credited, more := UpdateShape(cfg, w, s);
    }
  }

  /** Over every run, what left the queue are the entries paid and the entries lost; the money booked
      as matured is that of the first, as orphaned that of the second. */
  lemma {:induction false} FatesOfEntries(cfg: Config, steps: seq<Step>)
    requires ValidConfig(cfg)
    ensures var w, paid, lost := Run(cfg, steps), PaidEntries(cfg, steps), LostEntries(cfg, steps);
            && multiset(w.removed) == multiset(paid) + multiset(lost)
            && w.matured == QueuedMoney(paid) && w.orphaned == QueuedMoney(lost)
  {
    hide After, IsPaid, IsLost, QueuedMoney, Sum;
    if steps == [] {
      NoMoney();
    } else {
      var n := |steps| - 1;
      var w, s := Run(cfg, steps[..n]), steps[n];
      FatesOfEntries(cfg, steps[..n]);
      LeavesExactly(cfg, w, s);
      NotBoth(w, s);
      var paid, lost := PaidEntries(cfg, steps[..n]), LostEntries(cfg, steps[..n]);
      if s.Check? && IsPaid(s.height, w.ledger, s.block) {
        QueuedMoneyAppend(paid, w.ledger.pending.unconfirmedTxs[0]);
        assert lost + [] == lost;
      } else if s.Check? && IsLost(s.height, w.ledger, s.block) {
        QueuedMoneyAppend(lost, w.ledger.pending.unconfirmedTxs[0]);
        assert paid + [] == paid;
      } else {
        assert paid + [] == paid && lost + [] == lost;
      }
    }
  }

  lemma NoMoney()
    ensures QueuedMoney([]) == 0
  {
  }

  lemma NotBoth(w: World, s: Step)
    ensures s.Check? ==> !(IsPaid(s.height, w.ledger, s.block) && IsLost(s.height, w.ledger, s.block))
    ensures s.Check? && (IsPaid(s.height, w.ledger, s.block) || IsLost(s.height, w.ledger, s.block)) ==>
              w.ledger.pending.unconfirmedTxs != []
  {
  }
}
