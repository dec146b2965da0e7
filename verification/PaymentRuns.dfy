/** Who is paid, in terms of the accounts alone: where every transfer goes, which account a call pays,
    and over any run how what was sent to an address adds up to its Paid. */
module PaymentRuns {
  import opened GoTypes
  import opened Records
  import opened MapSums
  import opened Pplns
  import opened Rewards
  import opened Maturing
  import opened Withdrawing
  import opened LedgerRuns
  import opened MaturityRuns
  import opened QueueRuns

  /** Where the balance of an account is sent. */
  function Home(cfg: Config, k: Bytes): Bytes {
    if k == cfg.poolAddress || k in cfg.banned then cfg.feeAddress else k
  }

  /** A miner's account, as opposed to the pool's, the fee address' and banned ones. */
  predicate Ordinary(cfg: Config, k: Bytes) {
    k != cfg.poolAddress && k != cfg.feeAddress && k !in cfg.banned
  }

  /** The balance is above the threshold. */
  predicate IsDue(cfg: Config, info: map<Bytes, AddrInfo>, k: Bytes) {
    k in info && info[k].balance > cfg.minWithdrawal
  }

  lemma EffectiveIsHome(cfg: Config, k: Bytes)
    ensures Effective(cfg, k) == Home(cfg, k)
  {
  }

  lemma DueIs(cfg: Config, info: map<Bytes, AddrInfo>, k: Bytes)
    ensures OverThreshold(cfg, info, k) <==> IsDue(cfg, info, k)
  {
  }

  /** Every transfer pays out a due account: a miner's to its own address, the pool's or a banned one to
      the fee address, its balance minus the fee. */
  lemma TransfersGoHome(cfg: Config, info: map<Bytes, AddrInfo>, order: seq<Bytes>, sent: bool, t: TransferOut)
    requires t in WithdrawOnce(cfg, info, order, sent).transfers
    ensures exists k ::
              && k in order && IsDue(cfg, info, k)
              && t.amount == (info[k].balance - cfg.withdrawalFee) % TWO64
              && (k != cfg.poolAddress && k !in cfg.banned ==> t.destination == k)
              && (k == cfg.poolAddress || k in cfg.banned ==> t.destination == cfg.feeAddress)
  {
    hide WithdrawOnce, Effective, OverThreshold, Wrap64;
    TransfersWellFormed(cfg, info, order, sent);
    var k :| k in order && OverThreshold(cfg, info, k) && t == Payout(cfg, info, k);
    DueIs(cfg, info, k);
    EffectiveIsHome(cfg, k);
    Remainder(info[k].balance - cfg.withdrawalFee);
  }

  // ----- which account a call pays -----

  /** What some transfers send to a destination, and how many there are. */
  function SumTo(ts: seq<TransferOut>, d: Bytes): nat {
    if ts == [] then 0
    else SumTo(ts[..|ts| - 1], d) + if ts[|ts| - 1].destination == d then ts[|ts| - 1].amount else 0
  }

  function CountTo(ts: seq<TransferOut>, d: Bytes): nat {
    if ts == [] then 0 else CountTo(ts[..|ts| - 1], d) + if ts[|ts| - 1].destination == d then 1 else 0
  }

  /** The destinations of the due accounts among some addresses. */
  ghost function Homes(cfg: Config, info: map<Bytes, AddrInfo>, order: seq<Bytes>): set<Bytes> {
    set k | k in order && IsDue(cfg, info, k) :: Home(cfg, k)
  }

  lemma HomesAreDestinations(cfg: Config, info: map<Bytes, AddrInfo>, order: seq<Bytes>)
    ensures Homes(cfg, info, order) == Destinations(cfg, info, order)
  {
    hide Effective, OverThreshold, Home, IsDue;
    forall k
      ensures Effective(cfg, k) == Home(cfg, k) && (OverThreshold(cfg, info, k) <==> IsDue(cfg, info, k))
    {
      EffectiveIsHome(cfg, k);
      DueIs(cfg, info, k);
    }
  }

  lemma {:induction false} PayoutsTo(cfg: Config, info: map<Bytes, AddrInfo>, keys: seq<Bytes>, k: Bytes)
    requires Distinct(keys) && Ordinary(cfg, k)
    ensures SumTo(Payouts(cfg, info, keys), k) == if k in keys then Payout(cfg, info, k).amount else 0
    ensures CountTo(Payouts(cfg, info, keys), k) == if k in keys then 1 else 0
  {
    hide Effective, Wrap64, Lookup;
    if keys != [] {
      var init, j := keys[..|keys| - 1], keys[|keys| - 1];
      PayoutsTo(cfg, info, init, k);
      EffectiveIsHome(cfg, j);
      assert keys == init + [j] && j !in init;
      assert Payouts(cfg, info, keys)[..|init|] == Payouts(cfg, info, init);
    }
  }

  /** A miner's account is among those of a batch if and only if it is due and fewer than 25 destinations
      are due before it. */
  lemma {:induction false} InBatchExactly(cfg: Config, info: map<Bytes, AddrInfo>, order: seq<Bytes>, i: nat)
    requires Distinct(order) && i < |order| && Ordinary(cfg, order[i])
    ensures order[i] in PaidKeys(cfg, info, order) <==>
              IsDue(cfg, info, order[i]) && |Homes(cfg, info, order[..i])| < 25
    decreases |order|
  {
    hide OverThreshold, Effective, Home, IsDue;
    var n, k := |order| - 1, order[i];
    var init := order[..n];
    if i < n {
      InBatchExactly(cfg, info, init, i);
      assert init[..i] == order[..i];
    } else {
      HomesAreDestinations(cfg, info, init);
      PaidCount(cfg, info, init);
      DueIs(cfg, info, k);
      BatchWellFormed(cfg, info, init);
      NobodyElse(cfg, PaidKeys(cfg, info, init), init, k);
    }
  }

  /** Nobody else's balance is sent to a miner. */
  lemma NobodyElse(cfg: Config, keys: seq<Bytes>, order: seq<Bytes>, k: Bytes)
    requires Ordinary(cfg, k) && k !in order && forall j :: j in keys ==> j in order
    ensures !SentTo(cfg, keys, Effective(cfg, k)) && k !in keys
  {
    hide Effective;
    EffectiveIsHome(cfg, k);
    forall j | j in keys
      ensures Effective(cfg, j) != k
    {
      EffectiveIsHome(cfg, j);
    }
  }

  predicate MovedToPaid(before: AddrInfo, after: AddrInfo) {
    after.balance == 0 && after.paid == before.paid + before.balance && after.balancePending == before.balancePending
  }

  /** What one call does to a miner's account. It is paid if and only if the transfer succeeds, it is
      due, and fewer than 25 destinations are due before it; then one transfer takes its balance minus
      the fee to its own address, and the balance moves to Paid. Otherwise nothing is sent to it and
      nothing changes. */
  lemma MinerPaidExactly(cfg: Config, info: map<Bytes, AddrInfo>, order: seq<Bytes>, sent: bool, i: nat)
    requires Enumerates(order, info) && i < |order| && Ordinary(cfg, order[i])
    requires cfg.withdrawalFee <= cfg.minWithdrawal && Sum(Holdings(info)) < TWO64
    ensures var k := order[i];
            var r := WithdrawOnce(cfg, info, order, sent);
            var paid := sent && IsDue(cfg, info, k) && |Homes(cfg, info, order[..i])| < 25;
            && r.info.Keys == info.Keys && k in info
            && CountTo(r.transfers, k) == (if paid then 1 else 0)
            && SumTo(r.transfers, k) == (if paid then info[k].balance - cfg.withdrawalFee else 0)
            && (if paid then MovedToPaid(info[k], r.info[k]) else r.info[k] == info[k])
  {
    hide Effective, Home, Homes, IsDue, Sum, PaidKeys, StopsEarly, Holdings, Wrap64, Payout, Payouts, SumTo, CountTo, Settle,
         MovedToPaid, SettleAll;
    var k, keys := order[i], PaidKeys(cfg, info, order);
    assert k in order;
    InBatchExactly(cfg, info, order, i);
    BatchWellFormed(cfg, info, order);
    PayoutsTo(cfg, info, keys, k);
    NothingSent(k);
    SettledAccount(cfg, info, k);
    SettledAt(info, keys, k);
  }

  lemma SettledAt(info: map<Bytes, AddrInfo>, keys: seq<Bytes>, k: Bytes)
    requires k in info
    ensures SettleAll(info, keys).Keys == info.Keys
    ensures SettleAll(info, keys)[k] == if k in keys then Settle(info[k]) else info[k]
  {
  }

  lemma NothingSent(d: Bytes)
    ensures SumTo([], d) == 0 && CountTo([], d) == 0
  {
  }

  lemma SettledAccount(cfg: Config, info: map<Bytes, AddrInfo>, k: Bytes)
    requires k in info && cfg.withdrawalFee <= cfg.minWithdrawal && Sum(Holdings(info)) < TWO64
    ensures MovedToPaid(info[k], Settle(info[k]))
    ensures IsDue(cfg, info, k) ==> Payout(cfg, info, k).amount == info[k].balance - cfg.withdrawalFee
  {
    hide Sum, Holdings, Wrap64;
    HeldBy(info, k);
    WrapInRange(info[k].paid + info[k].balance);
    if IsDue(cfg, info, k) { WrapInRange(info[k].balance - cfg.withdrawalFee); }
  }

  // ----- whole runs -----

  /** Every transfer the wallet reported. */
  ghost function SentLog(cfg: Config, steps: seq<Step>): seq<TransferOut>
    requires ValidConfig(cfg)
  {
    if steps == [] then []
    else
      var w, s := Run(cfg, steps[..|steps| - 1]), steps[|steps| - 1];
      SentLog(cfg, steps[..|steps| - 1])
        + if s.Pay? then WithdrawOnce(cfg, w.ledger.info, s.order, s.answer.Sent?).transfers else []
  }

  lemma {:induction false} SumToConcat(a: seq<TransferOut>, b: seq<TransferOut>, d: Bytes)
    ensures SumTo(a + b, d) == SumTo(a, d) + SumTo(b, d)
    ensures CountTo(a + b, d) == CountTo(a, d) + CountTo(b, d)
    decreases |b|
  {
    if b == [] {
      assert a + b == a;
    } else {
      var n := |b| - 1;
      assert (a + b)[..|a + b| - 1] == a + b[..n];
      SumToConcat(a, b[..n], d);
    }
  }

  lemma OtherStepsPayNobody(cfg: Config, w: World, s: Step, k: Bytes)
    requires ValidConfig(cfg) && !s.Pay?
    ensures Old(After(cfg, w, s).ledger.info, k).paid == Old(w.ledger.info, k).paid
  {
    hide CreditAll, Credited, SortByHeight, CheckLedger, IsPaid, IsLost, WalletSurplus, FactorOf, AmountOf, Sum, NextMinHeight,
         QueuedMoney, SumRewards, Maturing.Judge;
    BooksFollowTheProcess(cfg, w, s);
    if s.Check? { CheckExactly(cfg, s.height, w.ledger, s.block, s.balance); }
  }

  lemma PayStep(cfg: Config, w: World, s: Step, k: Bytes)
    requires ValidConfig(cfg) && s.Pay? && Books(cfg, w) && Bounded(w) && Sound(w, s)
    requires cfg.withdrawalFee <= cfg.minWithdrawal && Ordinary(cfg, k)
    ensures var ts := WithdrawOnce(cfg, w.ledger.info, s.order, s.answer.Sent?).transfers;
            Old(After(cfg, w, s).ledger.info, k).paid
              == Old(w.ledger.info, k).paid + SumTo(ts, k) + Fees(CountTo(ts, k), cfg.withdrawalFee)
  {
    hide WithdrawOnce, Sum, Holdings, Homes, Books, Conserved, IsDue, NextMinHeight, Bounded;
    var info := w.ledger.info;
    assert Sum(Holdings(info)) < TWO64 by { HoldingsBounded(cfg, w); }
    OneMoreFee(0, cfg.withdrawalFee);
    if k in info {
      var i :| 0 <= i < |s.order| && s.order[i] == k;
      MinerPaidExactly(cfg, info, s.order, s.answer.Sent?, i);
      DueAbove(cfg, info, k);
    } else {
      StrangerUnpaid(cfg, info, s.order, s.answer.Sent?, k);
    }
  }

  lemma DueAbove(cfg: Config, info: map<Bytes, AddrInfo>, k: Bytes)
    requires cfg.withdrawalFee <= cfg.minWithdrawal
    ensures IsDue(cfg, info, k) ==> k in info && info[k].balance > cfg.withdrawalFee
  {
  }

  lemma StrangerUnpaid(cfg: Config, info: map<Bytes, AddrInfo>, order: seq<Bytes>, sent: bool, k: Bytes)
    requires Enumerates(order, info) && k !in info && Ordinary(cfg, k)
    ensures var r := WithdrawOnce(cfg, info, order, sent);
            k !in r.info && SumTo(r.transfers, k) == 0 && CountTo(r.transfers, k) == 0
  {
    hide Effective, PaidKeys, StopsEarly;
    BatchWellFormed(cfg, info, order);
    PayoutsTo(cfg, info, PaidKeys(cfg, info, order), k);
    NothingSent(k);
  }

  /** Over every run, what was sent to a miner's address plus one fee a transfer is what is booked as
      paid to it. */
  lemma {:induction false} PaidIsWhatWasSent(cfg: Config, steps: seq<Step>, k: Bytes)
    requires ValidConfig(cfg) && cfg.withdrawalFee <= cfg.minWithdrawal && Ordinary(cfg, k)
    requires SoundRun(cfg, steps) && Bounded(Run(cfg, steps))
    ensures var log := SentLog(cfg, steps);
            Old(Run(cfg, steps).ledger.info, k).paid == SumTo(log, k) + Fees(CountTo(log, k), cfg.withdrawalFee)
  {
    hide After, Sound, Bounded, Books, WithdrawOnce, Fees;
    OneMoreFee(0, cfg.withdrawalFee);
    if steps == [] {
      NothingSent(k);
    } else {
      var n := |steps| - 1;
      var w, s := Run(cfg, steps[..n]), steps[n];
      TakenGrows(cfg, w, s);
      BoundedBefore(w, After(cfg, w, s));
      MoneyIsConserved(cfg, steps[..n]);
      PaidIsWhatWasSent(cfg, steps[..n], k);
      var log := SentLog(cfg, steps[..n]);
      if s.Pay? {
        var ts := WithdrawOnce(cfg, w.ledger.info, s.order, s.answer.Sent?).transfers;
        PayStep(cfg, w, s, k);
        SumToConcat(log, ts, k);
        FeesAdd(CountTo(log, k), CountTo(ts, k), cfg.withdrawalFee);
      } else {
        OtherStepsPayNobody(cfg, w, s, k);
        assert log + [] == log;
      }
    }
  }

  lemma FeesAdd(m: nat, n: nat, fee: u64)
    ensures Fees(m + n, fee) == Fees(m, fee) + Fees(n, fee)
  {
  }
}
