/** What the books say over any run about one account, and about what has left the wallet. */
module AccountRuns {
  import opened GoTypes
  import opened Records
  import opened MapSums
  import opened Pplns
  import opened Maturing
  import opened Withdrawing
  import opened LedgerRuns
  import opened MaturityRuns

  // ----- one account -----

  /** Balance plus what has been paid. */
  function Held(info: map<Bytes, AddrInfo>, k: Bytes): nat {
    Lookup(info, k).balance + Lookup(info, k).paid
  }

  /** What a step credits to an account: its amount, when an entry that names it is paid. */
  ghost function EarnedBy(cfg: Config, w: World, s: Step, k: Bytes): int
    requires ValidConfig(cfg)
  {
    if s.Check? && IsPaid(s.height, w.ledger, s.block) then
      var bals := w.ledger.pending.unconfirmedTxs[0].bals;
      if k in bals && Sum(bals) > 0
      then AmountOf(bals[k], s.block.minerReward.value, Sum(bals), FactorOf(WalletSurplus(cfg, w.ledger.info, s.balance)))
      else 0
    else 0
  }

  ghost function Earned(cfg: Config, steps: seq<Step>, k: Bytes): int
    requires ValidConfig(cfg)
  {
    if steps == [] then 0
    else
      var n := |steps| - 1;
      Earned(cfg, steps[..n], k) + EarnedBy(cfg, Run(cfg, steps[..n]), steps[n], k)
  }

  lemma SameHoldings(a: map<Bytes, AddrInfo>, b: map<Bytes, AddrInfo>, k: Bytes)
    requires Holdings(a) == Holdings(b)
    ensures Held(a, k) == Held(b, k)
  {
    assert Held(a, k) == Get(Holdings(a), k) && Held(b, k) == Get(Holdings(b), k);
  }

  lemma CheckEarns(cfg: Config, w: World, s: Step, k: Bytes)
    requires ValidConfig(cfg) && s.Check? && Books(cfg, w) && Bounded(w) && k !in cfg.banned
    ensures Held(AfterCheck(cfg, w, s).ledger.info, k) == Held(w.ledger.info, k) + EarnedBy(cfg, w, s, k)
  {
    hide QueuedMoney, Sum, Holdings, PaidAmounts, Credits, Confiscated, Credit, Debt, BlockMultiplier, Wrap64,
         AmountOf, WalletSurplus, FactorOf, DebtFactor;
    var v := Maturing.Judge(cfg, s.height, w.ledger, s.block, s.balance);
    if v.Mature? {
      var txs, info := w.ledger.pending.unconfirmedTxs, w.ledger.info;
      var bals, reward := txs[0].bals, s.block.minerReward.value;
      assert txs[0] in txs;
      QueuedMoneyOfHead(txs);
      CreditsWithinTotal(cfg, bals, reward, Debt(cfg, info, s.balance));
      CreditFits(cfg, info, bals, v.m, k);
      SurplusIsDebt(cfg, info, s.balance);
      if k in bals { CreditIsAmount(cfg, bals, k, reward, Debt(cfg, info, s.balance)); }
    }
  }

  lemma CreditFits(cfg: Config, info: map<Bytes, AddrInfo>, bals: map<Bytes, u64>, m: Multiplier, k: Bytes)
    requires Sum(Holdings(info)) + Sum(Credits(cfg, bals, m)) < TWO64
    ensures k in bals ==> Wrap64(Lookup(info, k).balance + Credit(cfg, bals[k], m)) == Lookup(info, k).balance + Credit(cfg, bals[k], m)
  {
    hide Credit, Sum, Wrap64, Holdings;
    HeldBy(info, k);
    SumAtLeast(Credits(cfg, bals, m), k);
    if k in bals { WrapInRange(Lookup(info, k).balance + Credit(cfg, bals[k], m)); }
  }

  lemma PayEarnsNothing(cfg: Config, w: World, s: Step, k: Bytes)
    requires s.Pay? && Books(cfg, w) && Bounded(w)
    ensures Held(AfterPay(cfg, w, s).ledger.info, k) == Held(w.ledger.info, k)
  {
    hide Sum, Holdings, SettleAll, PaidKeys, StopsEarly, Conserved, Books;
    assert Sum(Holdings(w.ledger.info)) < TWO64 by { HoldingsBounded(cfg, w); }
    var after := SettleAll(w.ledger.info, PaidKeys(cfg, w.ledger.info, s.order));
    SettleKeepsHoldings(w.ledger.info, PaidKeys(cfg, w.ledger.info, s.order));
    SameHoldings(after, w.ledger.info, k);
  }

  lemma UpdateEarnsNothing(cfg: Config, w: World, s: Step, k: Bytes)
    requires s.Update?
    ensures Held(AfterUpdate(cfg, w, s).ledger.info, k) == Held(w.ledger.info, k)
  {
    hide Rewards.CreditAll, Rewards.Credited, Rewards.SortByHeight, QueuedMoney, SumRewards;
  }

  lemma StepEarns(cfg: Config, w: World, s: Step, k: Bytes)
    requires ValidConfig(cfg) && Books(cfg, w) && Bounded(w) && k !in cfg.banned
    ensures Held(After(cfg, w, s).ledger.info, k) == Held(w.ledger.info, k) + EarnedBy(cfg, w, s, k)
  {
    hide AfterUpdate, AfterCheck, AfterPay, Books, Bounded, NextMinHeight, Held, IsPaid, AmountOf;
    match s
    case Update(_, _, _) => UpdateEarnsNothing(cfg, w, s, k);
    case Check(_, _, _) => CheckEarns(cfg, w, s, k);
    case Pay(_, _) => PayEarnsNothing(cfg, w, s, k);
    case Stats(address) => StatsChangesNothing(cfg, w, address);
    case _ =>
  }

  /** Over every run, what an account that is not banned holds as a balance or has been paid is exactly
      the sum of its amounts in the entries that were paid. */
  lemma {:induction false} AccountIsWhatItEarned(cfg: Config, steps: seq<Step>, k: Bytes)
    requires ValidConfig(cfg) && cfg.withdrawalFee <= cfg.minWithdrawal && k !in cfg.banned
    requires SoundRun(cfg, steps) && Bounded(Run(cfg, steps))
    ensures Held(Run(cfg, steps).ledger.info, k) == Earned(cfg, steps, k)
  {
    hide After, Sound, Bounded, Books, EarnedBy;
    if steps != [] {
      var n := |steps| - 1;
      var w := Run(cfg, steps[..n]);
      TakenGrows(cfg, w, steps[n]);
      BoundedBefore(w, After(cfg, w, steps[n]));
      MoneyIsConserved(cfg, steps[..n]);
      AccountIsWhatItEarned(cfg, steps[..n], k);
      StepEarns(cfg, w, steps[n], k);
    }
  }

  // ----- what has left the wallet -----

  /** Step k sent a batch that the wallet reported as failed. */
  ghost predicate PaidUnreported(cfg: Config, steps: seq<Step>, k: nat)
    requires ValidConfig(cfg)
  {
    && k < |steps| && steps[k].Pay? && steps[k].answer.Unreported?
    && PaidKeys(cfg, Run(cfg, steps[..k]).ledger.info, steps[k].order) != []
  }

  lemma BatchHasMoney(cfg: Config, info: map<Bytes, AddrInfo>, order: seq<Bytes>)
    requires cfg.withdrawalFee <= cfg.minWithdrawal
    ensures SumAmounts(BatchOf(cfg, info, order)) > 0 <==> PaidKeys(cfg, info, order) != []
  {
    hide PaidKeys, OverThreshold, Payout, Lookup;
    var keys := PaidKeys(cfg, info, order);
    BatchWellFormed(cfg, info, order);
    if keys != [] {
      PayoutAmount(cfg, info, keys[|keys| - 1]);
      assert Lookup(info, keys[|keys| - 1]).balance > cfg.minWithdrawal by { DueIsOver(cfg, info, keys[|keys| - 1]); }
    }
  }

  lemma DueIsOver(cfg: Config, info: map<Bytes, AddrInfo>, k: Bytes)
    ensures OverThreshold(cfg, info, k) <==> Lookup(info, k).balance > cfg.minWithdrawal
  {
  }

  lemma UnreportedStep(cfg: Config, w: World, s: Step)
    requires ValidConfig(cfg)
    ensures After(cfg, w, s).unreported
         == w.unreported + if s.Pay? && s.answer.Unreported? then SumAmounts(BatchOf(cfg, w.ledger.info, s.order)) else 0
  {
    hide Rewards.UpdateLedger, Rewards.Credited, Maturing.Judge, CheckLedger, WithdrawOnce, BatchOf, Credits, Confiscated, Debt, SumAmounts;
  }

  lemma {:induction false} UnreportedExactly(cfg: Config, steps: seq<Step>)
    requires ValidConfig(cfg) && cfg.withdrawalFee <= cfg.minWithdrawal
    ensures Run(cfg, steps).unreported > 0 <==> exists k: nat :: PaidUnreported(cfg, steps, k)
  {
    hide After, BatchOf, PaidKeys, SumAmounts;
    if steps != [] {
      var n := |steps| - 1;
      var init, s := steps[..n], steps[n];
      var w := Run(cfg, init);
      UnreportedExactly(cfg, init);
      UnreportedStep(cfg, w, s);
      if s.Pay? { BatchHasMoney(cfg, w.ledger.info, s.order); }
      forall k: nat | k < n
        ensures PaidUnreported(cfg, init, k) <==> PaidUnreported(cfg, steps, k)
      {
        assert init[..k] == steps[..k];
      }
      assert PaidUnreported(cfg, steps, n)
        <==> s.Pay? && s.answer.Unreported? && PaidKeys(cfg, w.ledger.info, s.order) != [];
      if k: nat :| PaidUnreported(cfg, init, k) {
        assert PaidUnreported(cfg, steps, k);
      }
    }
  }

  /** Over every run, what has really left the wallet, with the fees kept, is what is booked as paid if
      and only if the wallet never reported an error for a batch it had broadcast. */
  lemma LeftWalletExactly(cfg: Config, steps: seq<Step>)
    requires ValidConfig(cfg) && cfg.withdrawalFee <= cfg.minWithdrawal
    requires SoundRun(cfg, steps) && Bounded(Run(cfg, steps))
    ensures var w := Run(cfg, steps);
            (w.sent + w.unreported + w.fees == Sum(PaidAmounts(w.ledger.info))
             <==> !exists k: nat :: PaidUnreported(cfg, steps, k))
  {
    hide Run, SoundRun, Sum, PaidAmounts, Conserved, Bounded, PaidUnreported;
    MoneyIsConserved(cfg, steps);
    UnreportedExactly(cfg, steps);
  }
}
