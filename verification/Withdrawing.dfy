/** Paying balances out in batches (Withdraw in cmd/master/withdraw.go and the loop around it in
    cmd/master/updater.go), as functions on the stored data. */
module Withdrawing {
  import opened GoTypes
  import opened Records
  import opened MapSums
  import opened Pplns
  import opened Rewards
  import opened Maturing

  const MIN_WITHDRAW_DESTINATIONS := 1
  const MAX_WITHDRAW_DESTINATIONS := 25
  const MAX_WITHDRAW_ATTEMPTS := 10

  datatype TransferOut = TransferOut(amount: u64, destination: Bytes)

  /** Where an address' payout is sent. */
  function Effective(cfg: Config, key: Bytes): Bytes {
    var address := if key == cfg.poolAddress then cfg.feeAddress else key;
    if address in cfg.banned then cfg.feeAddress else address
  }

  function Payout(cfg: Config, info: map<Bytes, AddrInfo>, k: Bytes): TransferOut {
    TransferOut(Wrap64(Lookup(info, k).balance - cfg.withdrawalFee), Effective(cfg, k))
  }

  function Payouts(cfg: Config, info: map<Bytes, AddrInfo>, keys: seq<Bytes>): (ts: seq<TransferOut>)
    ensures |ts| == |keys|
  {
    if keys == [] then [] else Payouts(cfg, info, keys[..|keys| - 1]) + [Payout(cfg, info, keys[|keys| - 1])]
  }

  predicate OverThreshold(cfg: Config, info: map<Bytes, AddrInfo>, k: Bytes) {
    Lookup(info, k).balance > cfg.minWithdrawal
  }

  ghost predicate SentTo(cfg: Config, keys: seq<Bytes>, destination: Bytes) {
    exists k :: k in keys && Effective(cfg, k) == destination
  }

  /** The addresses one batch pays: over the threshold, at most 25, one for each destination. */
  ghost function PaidKeys(cfg: Config, info: map<Bytes, AddrInfo>, order: seq<Bytes>): seq<Bytes> {
    if order == [] then []
    else
      var n := |order| - 1;
      var before := PaidKeys(cfg, info, order[..n]);
      if |before| < MAX_WITHDRAW_DESTINATIONS && OverThreshold(cfg, info, order[n])
         && !SentTo(cfg, before, Effective(cfg, order[n]))
      then before + [order[n]]
      else before
  }

  /** The loop meets an address after the batch is full. */
  ghost predicate StopsEarly(cfg: Config, info: map<Bytes, AddrInfo>, order: seq<Bytes>) {
    order != [] && |PaidKeys(cfg, info, order[..|order| - 1])| >= MAX_WITHDRAW_DESTINATIONS
  }

  function Settle(x: AddrInfo): AddrInfo {
    AddrInfo(0, x.balancePending, Wrap64(x.paid + x.balance))
  }

  function SettleAll(info: map<Bytes, AddrInfo>, keys: seq<Bytes>): map<Bytes, AddrInfo> {
    map k | k in info :: if k in keys then Settle(info[k]) else info[k]
  }

  /** The stored data after one call, its result, and the transfers sent. */
  datatype Paid = Paid(info: map<Bytes, AddrInfo>, unpaid: bool, transfers: seq<TransferOut>)

  ghost function WithdrawOnce(cfg: Config, info: map<Bytes, AddrInfo>, order: seq<Bytes>, sent: bool): Paid {
    var keys := PaidKeys(cfg, info, order);
    if |keys| < MIN_WITHDRAW_DESTINATIONS then Paid(info, StopsEarly(cfg, info, order), [])
    else if !sent then Paid(info, false, [])
    else Paid(SettleAll(info, keys), StopsEarly(cfg, info, order), Payouts(cfg, info, keys))
  }

  /** The bounded loop: at most `left` more calls; sent(i) is the wallet's answer to call i. */
  ghost function WithdrawLoop(cfg: Config, info: map<Bytes, AddrInfo>, order: seq<Bytes>, sent: nat -> bool, i: nat, left: nat)
    : (map<Bytes, AddrInfo>, nat)
    decreases left
  {
    if left == 0 then (info, i)
    else
      var r := WithdrawOnce(cfg, info, order, sent(i));
      if r.unpaid then WithdrawLoop(cfg, r.info, order, sent, i + 1, left - 1) else (r.info, i + 1)
  }

  // ----- the batch is well formed -----

  ghost predicate GoodBatch(cfg: Config, info: map<Bytes, AddrInfo>, order: seq<Bytes>, keys: seq<Bytes>) {
    && |keys| <= MAX_WITHDRAW_DESTINATIONS
    && (forall i, j :: 0 <= i < j < |keys| ==> keys[i] != keys[j])
    && (forall i, j :: 0 <= i < j < |keys| ==> Effective(cfg, keys[i]) != Effective(cfg, keys[j]))
    && (forall k :: k in keys ==> k in order && OverThreshold(cfg, info, k))
  }

  lemma {:induction false} BatchWellFormed(cfg: Config, info: map<Bytes, AddrInfo>, order: seq<Bytes>)
    ensures GoodBatch(cfg, info, order, PaidKeys(cfg, info, order))
  {
    if order != [] {
      var n := |order| - 1;
      BatchWellFormed(cfg, info, order[..n]);
      assert order == order[..n] + [order[n]];
    }
  }

  lemma {:induction false} PayoutAt(cfg: Config, info: map<Bytes, AddrInfo>, keys: seq<Bytes>, i: nat)
    requires i < |keys|
    ensures Payouts(cfg, info, keys)[i] == Payout(cfg, info, keys[i])
  {
    if i < |keys| - 1 { PayoutAt(cfg, info, keys[..|keys| - 1], i); }
  }

  /** A destination is in the list of transfers when some paid address is sent there. */
  lemma SentToListed(cfg: Config, info: map<Bytes, AddrInfo>, keys: seq<Bytes>, destination: Bytes)
    ensures SentTo(cfg, keys, destination) <==> exists t :: t in Payouts(cfg, info, keys) && t.destination == destination
  {
    hide Effective, Wrap64, Lookup;
    var ts := Payouts(cfg, info, keys);
    forall i | 0 <= i < |keys|
      ensures ts[i] == Payout(cfg, info, keys[i])
    {
      PayoutAt(cfg, info, keys, i);
    }
    if SentTo(cfg, keys, destination) {
      var i :| 0 <= i < |keys| && Effective(cfg, keys[i]) == destination;
      assert ts[i] in ts;
    }
    if t :| t in ts && t.destination == destination {
      var i :| 0 <= i < |ts| && ts[i] == t;
      assert keys[i] in keys;
    }
  }

  /** The next address of the cursor, while the batch is not full. */
  lemma NextKey(cfg: Config, info: map<Bytes, AddrInfo>, order: seq<Bytes>, i: nat)
    requires i < |order| && |PaidKeys(cfg, info, order[..i])| < MAX_WITHDRAW_DESTINATIONS
    ensures var keys := PaidKeys(cfg, info, order[..i]);
            PaidKeys(cfg, info, order[..i + 1])
              == if OverThreshold(cfg, info, order[i]) && !SentTo(cfg, keys, Effective(cfg, order[i]))
                 then keys + [order[i]] else keys
  {
    hide OverThreshold, SentTo, Effective;
    assert order[..i + 1][..i] == order[..i];
  }

  /** Once the batch is full before the end, the rest of the cursor adds nothing. */
  lemma FullBatch(cfg: Config, info: map<Bytes, AddrInfo>, order: seq<Bytes>, i: nat)
    requires i < |order| && |PaidKeys(cfg, info, order[..i])| >= MAX_WITHDRAW_DESTINATIONS
    ensures PaidKeys(cfg, info, order) == PaidKeys(cfg, info, order[..i])
    ensures StopsEarly(cfg, info, order)
  {
    hide PaidKeys;
    PaidKeysGrow(cfg, info, order, i);
    PaidKeysGrow(cfg, info, order[..|order| - 1], i);
    assert order[..|order| - 1][..i] == order[..i];
  }

  lemma SettleOne(info: map<Bytes, AddrInfo>, keys: seq<Bytes>, k: Bytes)
    requires k in info && k !in keys
    ensures SettleAll(info, keys).Keys == info.Keys && SettleAll(info, keys)[k] == info[k]
    ensures SettleAll(info, keys + [k]) == SettleAll(info, keys)[k := Settle(info[k])]
  {
    hide Settle;
  }

  lemma PayoutsStep(cfg: Config, info: map<Bytes, AddrInfo>, keys: seq<Bytes>, k: Bytes)
    ensures Payouts(cfg, info, keys + [k]) == Payouts(cfg, info, keys) + [Payout(cfg, info, k)]
  {
    hide Payout;
    assert (keys + [k])[..|keys|] == keys;
  }

  /** At most 25 transfers, each from an account over the threshold, to pairwise distinct destinations. */
  lemma TransfersWellFormed(cfg: Config, info: map<Bytes, AddrInfo>, order: seq<Bytes>, sent: bool)
    ensures var ts := WithdrawOnce(cfg, info, order, sent).transfers;
            && |ts| <= MAX_WITHDRAW_DESTINATIONS
            && (forall i, j :: 0 <= i < j < |ts| ==> ts[i].destination != ts[j].destination)
            && (forall t :: t in ts ==> exists k :: k in order && OverThreshold(cfg, info, k) && t == Payout(cfg, info, k))
  {
    hide Effective, Wrap64, OverThreshold, Lookup, StopsEarly;
    var keys := PaidKeys(cfg, info, order);
    BatchWellFormed(cfg, info, order);
    forall i | 0 <= i < |keys|
      ensures Payouts(cfg, info, keys)[i] == Payout(cfg, info, keys[i])
    {
      PayoutAt(cfg, info, keys, i);
    }
  }

  /** Unless the loop stops early, whoever is over the threshold is paid or shares its
      destination with somebody who is. */
  lemma {:induction false} BatchComplete(cfg: Config, info: map<Bytes, AddrInfo>, order: seq<Bytes>, k: Bytes)
    requires !StopsEarly(cfg, info, order)
    requires k in order && OverThreshold(cfg, info, k)
    ensures SentTo(cfg, PaidKeys(cfg, info, order), Effective(cfg, k))
  {
    var n := |order| - 1;
    var before := PaidKeys(cfg, info, order[..n]);
    var keys := PaidKeys(cfg, info, order);
    if k == order[n] {
      if SentTo(cfg, before, Effective(cfg, k)) {
        var j :| j in before && Effective(cfg, j) == Effective(cfg, k);
        assert j in keys;
      } else {
        assert k in keys;
      }
    } else {
      assert order == order[..n] + [order[n]];
      NotEarlyBefore(cfg, info, order);
      BatchComplete(cfg, info, order[..n], k);
      var j :| j in before && Effective(cfg, j) == Effective(cfg, k);
      assert j in keys;
    }
  }

  lemma NotEarlyBefore(cfg: Config, info: map<Bytes, AddrInfo>, order: seq<Bytes>)
    requires order != [] && !StopsEarly(cfg, info, order)
    ensures !StopsEarly(cfg, info, order[..|order| - 1])
  {
    var init := order[..|order| - 1];
    if init != [] { PaidKeysGrow(cfg, info, init, |init| - 1); }
  }

  lemma {:induction false} PaidKeysGrow(cfg: Config, info: map<Bytes, AddrInfo>, order: seq<Bytes>, n: nat)
    requires n <= |order|
    ensures PaidKeys(cfg, info, order[..n]) <= PaidKeys(cfg, info, order)
    ensures |PaidKeys(cfg, info, order[..n])| < MAX_WITHDRAW_DESTINATIONS
         || PaidKeys(cfg, info, order[..n]) == PaidKeys(cfg, info, order)
    decreases |order| - n
  {
    if n == |order| {
      assert order[..n] == order;
    } else {
      var init := order[..|order| - 1];
      PaidKeysGrow(cfg, info, init, n);
      assert init[..n] == order[..n];
    }
  }

  /** An early stop means a full batch. */
  lemma StopsEarlyIsFull(cfg: Config, info: map<Bytes, AddrInfo>, order: seq<Bytes>)
    ensures StopsEarly(cfg, info, order) ==> |PaidKeys(cfg, info, order)| == MAX_WITHDRAW_DESTINATIONS
  {
    if StopsEarly(cfg, info, order) {
      PaidKeysGrow(cfg, info, order, |order| - 1);
      BatchWellFormed(cfg, info, order);
    }
  }

  // ----- the batch conserves money -----

  function SumAmounts(ts: seq<TransferOut>): nat {
    if ts == [] then 0 else SumAmounts(ts[..|ts| - 1]) + ts[|ts| - 1].amount
  }

  function SumBalances(info: map<Bytes, AddrInfo>, keys: seq<Bytes>): nat {
    if keys == [] then 0 else SumBalances(info, keys[..|keys| - 1]) + Lookup(info, keys[|keys| - 1]).balance
  }

  /** The fee revenue of n transfers. */
  function Fees(n: nat, fee: u64): nat {
    n * fee
  }

  lemma PayoutAmount(cfg: Config, info: map<Bytes, AddrInfo>, k: Bytes)
    requires cfg.withdrawalFee <= cfg.minWithdrawal && OverThreshold(cfg, info, k)
    ensures Payout(cfg, info, k).amount + cfg.withdrawalFee == Lookup(info, k).balance
  {
  }

  /** What is transferred plus one fee a transfer is what the paid accounts held. */
  lemma {:induction false} TransfersPlusFees(cfg: Config, info: map<Bytes, AddrInfo>, keys: seq<Bytes>)
    requires cfg.withdrawalFee <= cfg.minWithdrawal
    requires forall k :: k in keys ==> OverThreshold(cfg, info, k)
    ensures SumAmounts(Payouts(cfg, info, keys)) + Fees(|keys|, cfg.withdrawalFee) == SumBalances(info, keys)
  {
    hide Payout, OverThreshold, Lookup, Fees;
    OneMoreFee(if keys == [] then 0 else |keys| - 1, cfg.withdrawalFee);
    if keys != [] {
      var n := |keys| - 1;
      TransfersPlusFees(cfg, info, keys[..n]);
      assert Payouts(cfg, info, keys)[..n] == Payouts(cfg, info, keys[..n]);
      PayoutAmount(cfg, info, keys[n]);
    }
  }

  lemma OneMoreFee(n: nat, fee: u64)
    ensures Fees(n + 1, fee) == Fees(n, fee) + fee
    ensures Fees(0, fee) == 0
  {
  }

  function PaidAmounts(info: map<Bytes, AddrInfo>): map<Bytes, u64> {
    map k | k in info :: info[k].paid
  }

  /** Paying moves money from Balance to Paid: what an address holds in both stays the same. */
  lemma SettleKeepsHoldings(info: map<Bytes, AddrInfo>, keys: seq<Bytes>)
    requires Sum(Holdings(info)) < TWO64
    ensures Holdings(SettleAll(info, keys)) == Holdings(info)
  {
    hide Sum;
    forall k | k in info
      ensures Holdings(SettleAll(info, keys))[k] == Holdings(info)[k]
    {
      SumAtLeast(Holdings(info), k);
      WrapInRange(info[k].paid + info[k].balance);
    }
  }

  lemma SettleOneMore(info: map<Bytes, AddrInfo>, keys: seq<Bytes>, k: Bytes)
    requires k in info && k !in keys && info[k].paid + info[k].balance < TWO64
    ensures PaidAmounts(SettleAll(info, keys + [k]))
         == PaidAmounts(SettleAll(info, keys))[k := info[k].paid + info[k].balance]
    ensures Get(PaidAmounts(SettleAll(info, keys)), k) == info[k].paid
  {
  }

  /** The amounts booked as paid grow by exactly the balances set to zero. */
  lemma {:induction false} SettlePays(info: map<Bytes, AddrInfo>, keys: seq<Bytes>)
    requires Sum(Holdings(info)) < TWO64
    requires forall k :: k in keys ==> k in info
    requires forall i, j :: 0 <= i < j < |keys| ==> keys[i] != keys[j]
    ensures Sum(PaidAmounts(SettleAll(info, keys))) == Sum(PaidAmounts(info)) + SumBalances(info, keys)
  {
    hide Sum, PaidAmounts, SettleAll;
    if keys == [] {
      SettleNone(info);
    } else {
      var n := |keys| - 1;
      var k := keys[n];
      SettlePays(info, keys[..n]);
      HeldBy(info, k);
      SettleOneMore(info, keys[..n], k);
      assert keys[..n] + [k] == keys;
      SumUpdate(PaidAmounts(SettleAll(info, keys[..n])), k, info[k].paid + info[k].balance);
    }
  }

  lemma SettleNone(info: map<Bytes, AddrInfo>)
    ensures SettleAll(info, []) == info
  {
  }

  /** The zeroed balances were held. */
  lemma PaidWithinHoldings(info: map<Bytes, AddrInfo>, keys: seq<Bytes>)
    requires Sum(Holdings(info)) < TWO64
    requires forall k :: k in keys ==> k in info
    requires forall i, j :: 0 <= i < j < |keys| ==> keys[i] != keys[j]
    ensures SumBalances(info, keys) <= Sum(Holdings(info))
  {
    hide Sum;
    var after := SettleAll(info, keys);
    SettlePays(info, keys);
    SettleKeepsHoldings(info, keys);
    SumMonotone(PaidAmounts(after), Holdings(after));
  }

  /** One successful batch: the transfers plus the fee revenue are the balances set to zero,
      which are exactly the increase in what is booked as paid; nothing wraps around, everything
      held stays held, and nothing but the paid accounts changes. */
  lemma BatchConservesMoney(cfg: Config, info: map<Bytes, AddrInfo>, order: seq<Bytes>)
    requires Enumerates(order, info)
    requires Sum(Holdings(info)) < TWO64
    requires cfg.withdrawalFee <= cfg.minWithdrawal
    ensures var r := WithdrawOnce(cfg, info, order, true);
            var keys := PaidKeys(cfg, info, order);
            var feeRevenue := Fees(|keys|, cfg.withdrawalFee);
            && feeRevenue < TWO64
            && SumAmounts(r.transfers) + feeRevenue == SumBalances(info, keys)
            && Sum(PaidAmounts(r.info)) == Sum(PaidAmounts(info)) + SumBalances(info, keys)
            && Holdings(r.info) == Holdings(info)
            && (forall k :: k in keys ==> Lookup(r.info, k).balance == 0)
            && (forall k :: k !in keys ==> Lookup(r.info, k) == Lookup(info, k))
  {
    hide Sum, Wrap64, PaidAmounts, Holdings, Effective, Fees;
    var keys := PaidKeys(cfg, info, order);
    BatchWellFormed(cfg, info, order);
    TransfersPlusFees(cfg, info, keys);
    PaidWithinHoldings(info, keys);
    SettlePays(info, keys);
    SettleKeepsHoldings(info, keys);
    if keys == [] { SettleNone(info); }
  }

  /** A failed transfer changes nothing and ends the loop. */
  lemma FailedTransferChangesNothing(cfg: Config, info: map<Bytes, AddrInfo>, order: seq<Bytes>)
    ensures WithdrawOnce(cfg, info, order, false).info == info
    ensures WithdrawOnce(cfg, info, order, false).transfers == []
    ensures !WithdrawOnce(cfg, info, order, false).unpaid
  {
    StopsEarlyIsFull(cfg, info, order);
  }

  // ----- what the result says -----

  ghost function Due(cfg: Config, info: map<Bytes, AddrInfo>): set<Bytes> {
    set k | k in info && OverThreshold(cfg, info, k)
  }

  function ToSet(keys: seq<Bytes>): set<Bytes> {
    set k | k in keys
  }

  lemma {:induction false} DistinctCount(keys: seq<Bytes>)
    requires forall i, j :: 0 <= i < j < |keys| ==> keys[i] != keys[j]
    ensures |ToSet(keys)| == |keys|
  {
    if keys != [] {
      var n := |keys| - 1;
      DistinctCount(keys[..n]);
      assert ToSet(keys) == ToSet(keys[..n]) + {keys[n]};
    }
  }

  lemma DueAfterSettling(cfg: Config, info: map<Bytes, AddrInfo>, keys: seq<Bytes>)
    ensures Due(cfg, SettleAll(info, keys)) == Due(cfg, info) - ToSet(keys)
  {
    hide Wrap64;
  }

  /** A batch takes exactly its accounts off the list of those due. */
  lemma DueAfterBatch(cfg: Config, info: map<Bytes, AddrInfo>, order: seq<Bytes>)
    requires Enumerates(order, info)
    ensures var keys := PaidKeys(cfg, info, order);
            && Due(cfg, SettleAll(info, keys)) == Due(cfg, info) - ToSet(keys)
            && |Due(cfg, SettleAll(info, keys))| == |Due(cfg, info)| - |keys|
  {
    hide PaidKeys, SettleAll, Effective;
    var keys := PaidKeys(cfg, info, order);
    BatchWellFormed(cfg, info, order);
    DistinctCount(keys);
    DueAfterSettling(cfg, info, keys);
    assert ToSet(keys) <= Due(cfg, info);
  }

  /** The result is true exactly when the transfer went through and an address came after the
      25th destination; then exactly 25 due accounts were paid, and somebody is still unpaid if
      and only if more than 25 were due before. After a successful false result
      the accounts still due are those whose destination the batch has already paid. */
  lemma ResultMeaning(cfg: Config, info: map<Bytes, AddrInfo>, order: seq<Bytes>, sent: bool)
    requires Enumerates(order, info)
    ensures var r := WithdrawOnce(cfg, info, order, sent);
            var keys := PaidKeys(cfg, info, order);
            && (r.unpaid <==> sent && StopsEarly(cfg, info, order))
            && (r.unpaid ==> |keys| == 25 && |Due(cfg, r.info)| == |Due(cfg, info)| - 25)
            && (r.unpaid ==> (Due(cfg, r.info) != {} <==> |Due(cfg, info)| > 25))
            && (!r.unpaid && sent ==> forall k :: k in Due(cfg, r.info) ==> SentTo(cfg, keys, Effective(cfg, k)))
  {
    hide Wrap64, Effective;
    var r := WithdrawOnce(cfg, info, order, sent);
    StopsEarlyIsFull(cfg, info, order);
    DueAfterBatch(cfg, info, order);
    if !r.unpaid && sent {
      SettleNone(info);
      forall k | k in Due(cfg, r.info)
        ensures SentTo(cfg, PaidKeys(cfg, info, order), Effective(cfg, k))
      {
        assert k in Due(cfg, info);
        BatchComplete(cfg, info, order, k);
      }
    }
  }

  /** The loop calls Withdraw at most `left` times, and no more often than full batches of 25 due
      accounts can be paid, plus one; it never adds an account to those due. */
  lemma {:induction false} LoopProgress(cfg: Config, info: map<Bytes, AddrInfo>, order: seq<Bytes>, sent: nat -> bool, i: nat, left: nat)
    requires Enumerates(order, info)
    ensures var (after, calls) := WithdrawLoop(cfg, info, order, sent, i, left);
            && i <= calls <= i + left
            && Enumerates(order, after)
            && Due(cfg, after) <= Due(cfg, info)
            && 25 * (calls - i - 1) <= |Due(cfg, info)|
            && (calls - i < left ==> 25 * (calls - i - 1) + |Due(cfg, after)| <= |Due(cfg, info)|)
    decreases left
  {
    hide WithdrawOnce, Enumerates, Due;
    if left > 0 {
      var r := WithdrawOnce(cfg, info, order, sent(i));
      ResultMeaning(cfg, info, order, sent(i));
      CallShrinksDue(cfg, info, order, sent(i));
      if r.unpaid {
        LoopProgress(cfg, r.info, order, sent, i + 1, left - 1);
      }
    }
  }

  lemma CallShrinksDue(cfg: Config, info: map<Bytes, AddrInfo>, order: seq<Bytes>, sent: bool)
    requires Enumerates(order, info)
    ensures var r := WithdrawOnce(cfg, info, order, sent);
            && Enumerates(order, r.info)
            && Due(cfg, r.info) <= Due(cfg, info)
            && |Due(cfg, r.info)| <= |Due(cfg, info)|
  {
    hide Wrap64, Effective;
    DueAfterBatch(cfg, info, order);
  }

  /** When every transfer succeeds and fewer than 25 accounts for each allowed call are due, the loop
      ends by itself: every call but the last pays 25 due accounts, the last returns false, and still
      due are only accounts that share a destination with one it paid, nobody if the accounts due
      before it have different destinations. */
  lemma {:induction false} LoopFinishes(cfg: Config, info: map<Bytes, AddrInfo>, order: seq<Bytes>, sent: nat -> bool, i: nat, left: nat)
    requires Enumerates(order, info)
    requires forall n :: sent(n)
    requires |Due(cfg, info)| < 25 * left
    ensures var (after, calls) := WithdrawLoop(cfg, info, order, sent, i, left);
            && i < calls <= i + left
            && var last := WithdrawLoop(cfg, info, order, sent, i, calls - i - 1).0;
               var r := WithdrawOnce(cfg, last, order, true);
               && Due(cfg, last) <= Due(cfg, info)
               && |Due(cfg, last)| == |Due(cfg, info)| - 25 * (calls - i - 1)
               && after == r.info && !r.unpaid
               && (forall k :: k in Due(cfg, after) ==> SentTo(cfg, PaidKeys(cfg, last, order), Effective(cfg, k)))
               && (Due(cfg, after) == {} <==> DistinctDestinations(cfg, Due(cfg, last)))
    decreases left
  {
    hide WithdrawOnce, Enumerates, Due, PaidKeys, SentTo, DistinctDestinations;
    var r := WithdrawOnce(cfg, info, order, sent(i));
    ResultMeaning(cfg, info, order, sent(i));
    CallShrinksDue(cfg, info, order, sent(i));
    if r.unpaid {
      LoopFinishes(cfg, r.info, order, sent, i + 1, left - 1);
    } else {
      FalseMeansPaid(cfg, info, order);
    }
  }

  // ----- when the result says whether somebody is unpaid -----

  /** The destinations of the accounts over the threshold among some addresses. */
  ghost function Destinations(cfg: Config, info: map<Bytes, AddrInfo>, order: seq<Bytes>): set<Bytes> {
    set k | k in order && OverThreshold(cfg, info, k) :: Effective(cfg, k)
  }

  ghost predicate DistinctDestinations(cfg: Config, keys: set<Bytes>) {
    forall j, k :: j in keys && k in keys && j != k ==> Effective(cfg, j) != Effective(cfg, k)
  }

  /** A batch pays as many accounts as there are destinations, up to 25. */
  lemma {:induction false} PaidCount(cfg: Config, info: map<Bytes, AddrInfo>, order: seq<Bytes>)
    ensures var keys, all := PaidKeys(cfg, info, order), Destinations(cfg, info, order);
            && |keys| == Min(MAX_WITHDRAW_DESTINATIONS, |all|)
            && (|keys| < MAX_WITHDRAW_DESTINATIONS ==> forall d :: d in all <==> SentTo(cfg, keys, d))
  {
    hide OverThreshold, Effective, SentTo, Destinations;
    if order == [] {
      NoDestinations(cfg, info);
    } else {
      var n := |order| - 1;
      PaidCount(cfg, info, order[..n]);
      NextDestination(cfg, info, order[..n], order[n]);
      assert order == order[..n] + [order[n]];
      SentToOneMore(cfg, PaidKeys(cfg, info, order[..n]), order[n]);
    }
  }

  lemma NextDestination(cfg: Config, info: map<Bytes, AddrInfo>, order: seq<Bytes>, k: Bytes)
    ensures var all, next := Destinations(cfg, info, order), Destinations(cfg, info, order + [k]);
            && (!OverThreshold(cfg, info, k) ==> next == all)
            && (OverThreshold(cfg, info, k) ==>
                  && next == all + {Effective(cfg, k)}
                  && |next| == |all| + if Effective(cfg, k) in all then 0 else 1)
  {
    hide OverThreshold, Effective;
    var all, next := Destinations(cfg, info, order), Destinations(cfg, info, order + [k]);
    forall j
      ensures j in order + [k] <==> j in order || j == k
    {
    }
    if OverThreshold(cfg, info, k) {
      var d := Effective(cfg, k);
      assert d in next;
      assert next == all + {d};
      if d in all { assert next == all; }
    } else {
      assert next == all;
    }
  }

  lemma NoDestinations(cfg: Config, info: map<Bytes, AddrInfo>)
    ensures Destinations(cfg, info, []) == {}
    ensures forall d :: !SentTo(cfg, [], d)
  {
  }

  lemma SentToOneMore(cfg: Config, keys: seq<Bytes>, k: Bytes)
    ensures forall d :: SentTo(cfg, keys + [k], d) <==> SentTo(cfg, keys, d) || d == Effective(cfg, k)
  {
    hide Effective;
    forall d
      ensures SentTo(cfg, keys + [k], d) <==> SentTo(cfg, keys, d) || d == Effective(cfg, k)
    {
      assert k in keys + [k];
      if SentTo(cfg, keys, d) {
        var j :| j in keys && Effective(cfg, j) == d;
        assert j in keys + [k];
      }
    }
  }

  /** A successful false result leaves nobody unpaid if and only if the accounts that were due have
      different destinations. */
  lemma FalseMeansPaid(cfg: Config, info: map<Bytes, AddrInfo>, order: seq<Bytes>)
    requires Enumerates(order, info)
    ensures var r := WithdrawOnce(cfg, info, order, true);
            !r.unpaid ==> (Due(cfg, r.info) == {} <==> DistinctDestinations(cfg, Due(cfg, info)))
  {
    hide Effective, OverThreshold, PaidKeys, SettleAll, StopsEarly;
    var r, keys := WithdrawOnce(cfg, info, order, true), PaidKeys(cfg, info, order);
    ResultMeaning(cfg, info, order, true);
    DueAfterBatch(cfg, info, order);
    BatchWellFormed(cfg, info, order);
    if keys == [] { SettleNone(info); }
    assert Due(cfg, r.info) == Due(cfg, info) - ToSet(keys);
    if !r.unpaid {
      forall k | k in Due(cfg, r.info)
        ensures exists j :: j in Due(cfg, info) && j != k && Effective(cfg, j) == Effective(cfg, k)
      {
        var j :| j in keys && Effective(cfg, j) == Effective(cfg, k);
        assert j in Due(cfg, info) && j in ToSet(keys);
      }
    }
    if Due(cfg, r.info) == {} {
      assert forall k :: k in Due(cfg, info) ==> k in keys;
    }
  }

  /** "Returns true if there are still unpaid wallets": exactly when this is so. A failed call must
      find nobody due; a successful one that meets an address after 25 destinations, more than 25
      accounts; any other, accounts with different destinations. */
  lemma ResultExactly(cfg: Config, info: map<Bytes, AddrInfo>, order: seq<Bytes>, sent: bool)
    requires Enumerates(order, info)
    ensures var r := WithdrawOnce(cfg, info, order, sent);
            var crowded := order != [] && |Destinations(cfg, info, order[..|order| - 1])| >= MAX_WITHDRAW_DESTINATIONS;
            ((r.unpaid <==> Due(cfg, r.info) != {})
             <==> (if !sent then Due(cfg, info) == {}
                   else if crowded then |Due(cfg, info)| > MAX_WITHDRAW_DESTINATIONS
                   else DistinctDestinations(cfg, Due(cfg, info))))
  {
    hide Effective, OverThreshold, PaidKeys, Destinations, DistinctDestinations, Due;
    ResultMeaning(cfg, info, order, sent);
    if order != [] { PaidCount(cfg, info, order[..|order| - 1]); }
    if sent {
      FalseMeansPaid(cfg, info, order);
    } else {
      FailedTransferChangesNothing(cfg, info, order);
    }
  }

  // ----- where the result does not say so -----

  lemma {:induction false} AllPaid(cfg: Config, info: map<Bytes, AddrInfo>, keys: seq<Bytes>)
    requires |keys| <= MAX_WITHDRAW_DESTINATIONS
    requires forall i :: 0 <= i < |keys| ==> OverThreshold(cfg, info, keys[i])
    requires forall i, j :: 0 <= i < j < |keys| ==> Effective(cfg, keys[i]) != Effective(cfg, keys[j])
    ensures PaidKeys(cfg, info, keys) == keys
  {
    hide OverThreshold, Effective;
    if keys != [] {
      AllPaid(cfg, info, keys[..|keys| - 1]);
    }
  }

  /** Withdraw returns true with nobody left to pay whenever the first 25 addresses are due, have
      different destinations, and are followed by addresses that are not due. */
  lemma TrueWithNobodyUnpaid(cfg: Config, info: map<Bytes, AddrInfo>, order: seq<Bytes>)
    requires Enumerates(order, info) && |order| > 25
    requires forall i :: 0 <= i < |order| ==> (OverThreshold(cfg, info, order[i]) <==> i < 25)
    requires forall i, j :: 0 <= i < j < 25 ==> Effective(cfg, order[i]) != Effective(cfg, order[j])
    ensures var r := WithdrawOnce(cfg, info, order, true);
            r.unpaid && Due(cfg, r.info) == {}
  {
    hide OverThreshold, Effective, PaidKeys, WithdrawOnce;
    var n := |order| - 1;
    AllPaid(cfg, info, order[..25]);
    assert order[..n][..25] == order[..25];
    PaidKeysGrow(cfg, info, order[..n], 25);
    PaidKeysGrow(cfg, info, order, 25);
    ResultMeaning(cfg, info, order, true);
    DueAfterBatch(cfg, info, order);
    var r := WithdrawOnce(cfg, info, order, true);
    assert Due(cfg, r.info) == Due(cfg, info) - ToSet(order[..25]) by { PaidInfo(cfg, info, order); }
    forall k | k in Due(cfg, info)
      ensures k in order[..25]
    {
      var i :| 0 <= i < |order| && order[i] == k;
      assert order[..25][i] == k;
    }
  }

  lemma PaidInfo(cfg: Config, info: map<Bytes, AddrInfo>, order: seq<Bytes>)
    requires PaidKeys(cfg, info, order) != []
    ensures WithdrawOnce(cfg, info, order, true).info == SettleAll(info, PaidKeys(cfg, info, order))
  {
  }

  /** The pool's and the fee address' own accounts, both due. */
  function PoolAndFee(cfg: Config): map<Bytes, AddrInfo>
    requires cfg.minWithdrawal < TWO64 - 1
  {
    map[cfg.poolAddress := AddrInfo(cfg.minWithdrawal + 1, 0, 0), cfg.feeAddress := AddrInfo(cfg.minWithdrawal + 1, 0, 0)]
  }

  /** Withdraw returns false with somebody left to pay: both accounts are sent to the fee address, so
      one batch pays only the first. */
  lemma FalseWithSomebodyUnpaid(cfg: Config)
    requires cfg.poolAddress != cfg.feeAddress && cfg.minWithdrawal < TWO64 - 1
    ensures var order := [cfg.poolAddress, cfg.feeAddress];
            var r := WithdrawOnce(cfg, PoolAndFee(cfg), order, true);
            && Enumerates(order, PoolAndFee(cfg))
            && !r.unpaid && Due(cfg, r.info) != {}
  {
    hide PaidKeys, WithdrawOnce;
    var info, order := PoolAndFee(cfg), [cfg.poolAddress, cfg.feeAddress];
    assert order[..1] == [order[0]];
    assert Effective(cfg, order[0]) == cfg.feeAddress == Effective(cfg, order[1]);
    BatchWellFormed(cfg, info, order[..1]);
    AtMostAsMany(cfg, info, order[..1]);
    ResultMeaning(cfg, info, order, true);
    FalseMeansPaid(cfg, info, order);
    assert order[0] in Due(cfg, info) && order[1] in Due(cfg, info);
  }

  lemma {:induction false} AtMostAsMany(cfg: Config, info: map<Bytes, AddrInfo>, order: seq<Bytes>)
    ensures |PaidKeys(cfg, info, order)| <= |order|
  {
    hide OverThreshold, Effective, SentTo;
    if order != [] { AtMostAsMany(cfg, info, order[..|order| - 1]); }
  }
}
