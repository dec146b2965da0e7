/** The master process (cmd/master/): its database and in-memory heights, changed step by step the
    way the source does. Every method is tied to the functions that Pplns, Rewards, Maturing and
    Withdrawing reason about. */
module Master {
  import opened GoTypes
  import opened Records
  import opened MapSums
  import opened Pplns
  import opened Rewards
  import opened Maturing
  import opened Withdrawing

  /** The height from which the wallet is asked for coinbases. */
  function FirstRequest(minHeight: u64, height: u64): u64 {
    if minHeight == 0 && height > SAFETY_MARGIN then height - SAFETY_MARGIN else minHeight
  }

  function NextRequest(requested: u64, lastHeight: u64): u64 {
    if lastHeight > SAFETY_MARGIN then lastHeight - SAFETY_MARGIN else requested
  }

  /** DatabaseCleanup: unreadable and outdated shares go. */
  function Cleaned(shares: seq<Option<Share>>, clock: Clock): seq<Option<Share>> {
    if shares == [] then []
    else
      var n := |shares| - 1;
      if Counts(shares[n], clock) then Cleaned(shares[..n], clock) + [shares[n]] else Cleaned(shares[..n], clock)
  }

  /** The wallet a share is booked to; None when it is banned. */
  function Route(cfg: Config, wallet: Bytes, valid: bool): Option<Bytes> {
    var w := if valid then wallet else cfg.feeAddress;
    if w in cfg.banned then None else Some(w)
  }

  const HUGE_BALANCE: u64 := 0x7fff_ffff_ffff_ffff

  /** The per-address API call sets a balance above MaxUint64/2 to zero. */
  function ApiInfo(info: map<Bytes, AddrInfo>, k: Bytes): map<Bytes, AddrInfo> {
    if k in info && info[k].balance > HUGE_BALANCE then info[k := info[k].(balance := 0)] else info
  }

  class Pool {
    const cfg: Config
    var height: u64
    var minHeight: u64
    var pending: PendingBals
    var info: map<Bytes, AddrInfo>
    var shares: seq<Option<Share>>
    var recentWithdrawals: seq<seq<TransferOut>>

    ghost function Stored(): Ledger
      reads this
    {
      Ledger(pending, info, shares)
    }

    constructor (cfg: Config)
      ensures this.cfg == cfg && Stored() == EMPTY_LEDGER
      ensures height == 0 && minHeight == 0 && recentWithdrawals == []
    {
      this.cfg := cfg;
      height, minHeight := 0, 0;
      pending, info, shares := PendingBals(0, []), map[], [];
      recentWithdrawals := [];
    }

    /** listing is the wallet's answer, None an error. */
    method UpdatePendingBals(listing: Option<seq<Coinbase>>, clock: nat -> Clock) returns (requested: u64)
      modifies this
      ensures height == old(height) && recentWithdrawals == old(recentWithdrawals)
      ensures requested == FirstRequest(old(minHeight), height)
      ensures listing.None? ==> Stored() == old(Stored()) && minHeight == requested
      ensures listing.Some? ==> Stored() == UpdateLedger(cfg, height, old(Stored()), listing.value, clock)
      ensures listing.Some? ==> minHeight == NextRequest(requested, old(pending.lastHeight))
    {
      hide CreditAll, SortByHeight, SetPendings;
      if minHeight == 0 && height > SAFETY_MARGIN {
        minHeight := height - SAFETY_MARGIN;
      }
      requested := minHeight;
      if listing.None? { return; }
      var transfers := SortByHeight(listing.value);
      if pending.lastHeight > SAFETY_MARGIN {
        minHeight := pending.lastHeight - SAFETY_MARGIN;
      }
      var pass := CreditTransfers(transfers, clock);
      if pass.None? { return; }
      pending := PendingBals(pass.value.nextHeight, pass.value.txs);
      shares := pass.value.shares;
      info := PutPendings(info, pass.value.pendings);
    }

    /** The loop over the transfers, on the transaction's working copy. */
    method CreditTransfers(transfers: seq<Coinbase>, clock: nat -> Clock) returns (r: Option<Pass>)
      ensures r == CreditAll(cfg, height, pending.lastHeight, StartPass(Stored()), transfers, clock)
    {
      hide Split, PendingsAfter, MinersTotals, Pruned, Wrap64, Sum;
      ghost var start := StartPass(Stored());
      var p := Pass(shares, pending.unconfirmedTxs, map[], pending.lastHeight);
      var i := 0;
      while i < |transfers|
        invariant 0 <= i <= |transfers|
        invariant CreditAll(cfg, height, pending.lastHeight, start, transfers[..i], clock) == Some(p)
      {
        var vt := transfers[i];
        assert transfers[..i + 1][..i] == transfers[..i];
        ghost var next := CreditAll(cfg, height, pending.lastHeight, start, transfers[..i + 1], clock);
        if vt.topoheight > pending.lastHeight {
          var kept, minersTotalHashes, totHashes := ScanShares(p.shares, clock(i));
          if vt.hash.None? || |vt.hash.value| != 32 {
            assert next == None;
            CreditAllFails(cfg, height, pending.lastHeight, start, transfers, clock, i + 1);
            return None;
          }
          var bals, pendings := SplitReward(cfg, vt.reward, minersTotalHashes, totHashes, p.pendings);
          var nextHeight := p.nextHeight;
          if vt.topoheight > nextHeight {
            nextHeight := height;
          }
          var entry := UnconfTx(Wrap64(vt.topoheight + cfg.minConfs), vt.hash.value, bals);
          p := Pass(kept, p.txs + [entry], pendings, nextHeight);
        }
        i := i + 1;
      }
      assert transfers[..i] == transfers;
      return Some(p);
    }

    /** The pass over the address bucket at the end of UpdatePendingBals. */
    method PutPendings(addresses: map<Bytes, AddrInfo>, pendings: map<Bytes, u64>) returns (r: map<Bytes, AddrInfo>)
      ensures r == SetPendings(addresses, pendings)
    {
      r := addresses;
      var left := addresses.Keys;
      while left != {}
        invariant left <= addresses.Keys && r.Keys == addresses.Keys
        invariant forall k :: k in addresses ==>
          r[k] == if k in left then addresses[k] else addresses[k].(balancePending := Get(pendings, k))
        decreases left
      {
        var k :| k in left;
        r := r[k := r[k].(balancePending := Get(pendings, k))];
        left := left - {k};
      }
    }

    method GetTotalMoney(bals: map<Bytes, u64>) returns (money: u64)
      ensures money == Wrap64(Sum(bals))
    {
      hide Wrap64, Sum;
      money := 0;
      var left := bals;
      WrapInRange(0);
      SumOfNone<Bytes>();
      while left != map[]
        invariant Wrap64(money + Sum(left)) == Wrap64(Sum(bals))
        decreases |left|
      {
        var k :| k in left;
        SumRemove(left, k);
        WrapSum(money + left[k], Sum(left - {k}));
        money := Wrap64(money + left[k]);
        left := left - {k};
      }
      WrapInRange(money);
    }

    method GetDebt(wallet: Option<u64>) returns (debt: real)
      requires ValidConfig(cfg)
      ensures debt == Debt(cfg, info, wallet)
    {
      var confirmed := GetTotalMoney(Balances(info));
      var owed := GetTotalMoney(Maturing.Pendings(info));
      if wallet.None? || wallet.value < 1 { return 0.0; }
      return (wallet.value - confirmed - owed) as real / cfg.coin;
    }

    /** block and wallet are the answers of the daemon and the wallet. */
    method CheckWithdraw(block: BlockAnswer, wallet: Option<u64>) returns (balancesChanged: bool)
      requires ValidConfig(cfg)
      modifies this
      ensures Stored() == CheckLedger(cfg, height, old(Stored()), block, wallet)
      ensures balancesChanged <==> Judge(cfg, height, old(Stored()), block, wallet).Mature?
      ensures height == old(height) && minHeight == old(minHeight) && recentWithdrawals == old(recentWithdrawals)
    {
      hide Debt, DebtFactor, RewardRatio, MatureInfo;
      if pending.unconfirmedTxs == [] { return false; }
      var head := pending.unconfirmedTxs[0];
      if head.unlockHeight >= height { return false; }
      if block.NoAnswer? {
        if Wrap64(head.unlockHeight + 10) < height {
          pending := pending.(unconfirmedTxs := pending.unconfirmedTxs[1..]);
        }
        return false;
      }
      if block.orphaned {
        pending := pending.(unconfirmedTxs := pending.unconfirmedTxs[1..]);
        return false;
      }
      if block.minerReward.None? { return false; }
      var total := GetTotalMoney(head.bals);
      var multiplier := RewardRatio(block.minerReward.value, total);
      var debt := GetDebt(wallet);
      if multiplier.Times? {
        multiplier := Times(multiplier.factor * DebtFactor(debt));
      }
      assert multiplier == BlockMultiplier(block.minerReward.value, total, debt);
      assert Judge(cfg, height, old(Stored()), block, wallet) == Mature(multiplier);
      info := CreditBalances(info, head.bals, multiplier);
      pending := pending.(unconfirmedTxs := pending.unconfirmedTxs[1..]);
      balancesChanged := true;
    }

    /** The range loop that credits a matured block. */
    method CreditBalances(addresses: map<Bytes, AddrInfo>, bals: map<Bytes, u64>, multiplier: Multiplier)
      returns (r: map<Bytes, AddrInfo>)
      ensures r == MatureInfo(cfg, addresses, bals, multiplier)
    {
      hide Credit, Wrap64;
      r := addresses;
      var left := bals.Keys;
      while left != {}
        invariant left <= bals.Keys
        invariant r.Keys == addresses.Keys + (bals.Keys - left)
        invariant forall k :: k in addresses && (k !in bals || k in left) ==> r[k] == addresses[k]
        invariant forall k :: k in bals && k !in left ==>
          r[k] == CreditInfo(cfg, k, Lookup(addresses, k), Credit(cfg, bals[k], multiplier))
        decreases left
      {
        var i :| i in left;
        var addrInfo := if i in r then r[i] else AddrInfo(0, 0, 0);
        var banned := i in cfg.banned;
        addrInfo := addrInfo.(balance := Wrap64(addrInfo.balance + Credit(cfg, bals[i], multiplier)));
        if banned {
          addrInfo := addrInfo.(balance := 0, balancePending := 0);
        }
        r := r[i := addrInfo];
        left := left - {i};
      }
    }

    /** order is the cursor's; sent says whether the wallet reported no error. */
    method Withdraw(order: seq<Bytes>, sent: bool) returns (unpaid: bool)
      requires Enumerates(order, info)
      modifies this
      ensures var r := WithdrawOnce(cfg, old(info), order, sent);
              info == r.info && unpaid == r.unpaid
              && recentWithdrawals == (if r.transfers == [] then [] else [r.transfers]) + old(recentWithdrawals)
      ensures !sent ==> info == old(info) && recentWithdrawals == old(recentWithdrawals) && !unpaid
      ensures pending == old(pending) && shares == old(shares) && height == old(height) && minHeight == old(minHeight)
    {
      hide SettleAll, Payouts, PaidKeys, StopsEarly;
      FailedTransferChangesNothing(cfg, info, order);
      var destinations, addresses: map<Bytes, AddrInfo>;
      destinations, addresses, unpaid := CollectBatch(order);
      if |destinations| < MIN_WITHDRAW_DESTINATIONS { return; }
      if !sent { return false; }
      info := addresses;
      recentWithdrawals := [destinations] + recentWithdrawals;
    }

    method AlreadyListed(destinations: seq<TransferOut>, address: Bytes) returns (skip: bool)
      ensures skip <==> exists t :: t in destinations && t.destination == address
    {
      skip := false;
      for i := 0 to |destinations|
        invariant skip <==> exists t :: t in destinations[..i] && t.destination == address
      {
        assert destinations[..i + 1] == destinations[..i] + [destinations[i]];
        if destinations[i].destination == address {
          skip := true;
        }
      }
      assert destinations[..|destinations|] == destinations;
    }

    /** The cursor loop of Withdraw, on the transaction's working copy. */
    method CollectBatch(order: seq<Bytes>)
      returns (destinations: seq<TransferOut>, addresses: map<Bytes, AddrInfo>, unpaid: bool)
      requires Enumerates(order, info)
      ensures var keys := PaidKeys(cfg, info, order);
              && destinations == Payouts(cfg, info, keys)
              && addresses == SettleAll(info, keys)
              && unpaid == StopsEarly(cfg, info, order)
    {
      hide PaidKeys, SettleAll, Settle, Payouts, Payout, OverThreshold, SentTo;
      destinations, addresses, unpaid := [], info, false;
      ghost var keys := [];
      BatchOfNone(cfg, info);
      assert order[..0] == [];
      var i := 0;
      while i < |order|
        invariant 0 <= i <= |order|
        invariant keys == PaidKeys(cfg, info, order[..i])
        invariant i > 0 ==> |PaidKeys(cfg, info, order[..i - 1])| < MAX_WITHDRAW_DESTINATIONS
        invariant destinations == Payouts(cfg, info, keys)
        invariant addresses == SettleAll(info, keys)
        invariant forall k :: k in keys ==> k in order[..i]
      {
        if |destinations| >= MAX_WITHDRAW_DESTINATIONS {
          FullBatch(cfg, info, order, i);
          return destinations, addresses, true;
        }
        var key := order[i];
        assert key in info && key !in keys;
        SettleOne(info, keys, key);
        NextKey(cfg, info, order, i);
        var addrInfo := addresses[key];
        assert OverThreshold(cfg, addresses, key) == OverThreshold(cfg, info, key) by { SameBalance(cfg, addresses, info, key); }
        if OverThreshold(cfg, addresses, key) {
          var address := Effective(cfg, key);
          SentToListed(cfg, info, keys, address);
          var skip := AlreadyListed(destinations, address);
          if !skip {
            SameBalance(cfg, addresses, info, key);
            PayoutsStep(cfg, info, keys, key);
            destinations := destinations + [Payout(cfg, addresses, key)];
            addresses := addresses[key := Settle(addrInfo)];
            keys := keys + [key];
          }
        }
        i := i + 1;
      }
      assert order[..i] == order;
      EndOfCursor(cfg, info, order);
    }

    /** The loop in Updater; sent(i) is the wallet's answer to the i-th call. */
    method WithdrawRounds(order: seq<Bytes>, sent: nat -> bool) returns (calls: nat)
      requires Enumerates(order, info)
      modifies this
      ensures (info, calls) == WithdrawLoop(cfg, old(info), order, sent, 0, MAX_WITHDRAW_ATTEMPTS)
      ensures calls <= 10
      ensures pending == old(pending) && shares == old(shares) && height == old(height) && minHeight == old(minHeight)
    {
      hide WithdrawOnce;
      calls := 0;
      while calls < MAX_WITHDRAW_ATTEMPTS
        invariant 0 <= calls <= MAX_WITHDRAW_ATTEMPTS
        invariant Enumerates(order, info)
        invariant WithdrawLoop(cfg, info, order, sent, calls, MAX_WITHDRAW_ATTEMPTS - calls)
               == WithdrawLoop(cfg, old(info), order, sent, 0, MAX_WITHDRAW_ATTEMPTS)
        invariant pending == old(pending) && shares == old(shares) && height == old(height) && minHeight == old(minHeight)
      {
        CallShrinksDue(cfg, info, order, sent(calls));
        var stillUnpaid := Withdraw(order, sent(calls));
        calls := calls + 1;
        if !stillUnpaid { break; }
      }
    }

    /** valid is the verdict of the address library, now the time of arrival. */
    method OnShareFound(wallet: Bytes, diff: u64, valid: bool, now: u64)
      modifies this
      ensures shares == old(shares) + match Route(cfg, wallet, valid)
                                       case None => []
                                       case Some(w) => [Some(Share(w, diff, now))]
      ensures pending == old(pending) && info == old(info) && height == old(height) && minHeight == old(minHeight)
    {
      var w := wallet;
      if !valid {
        w := cfg.feeAddress;
      }
      for i := 0 to |cfg.banned|
        invariant w !in cfg.banned[..i]
      {
        if w == cfg.banned[i] { return; }
      }
      assert cfg.banned[..|cfg.banned|] == cfg.banned;
      shares := shares + [Some(Share(w, diff, now))];
    }

    method DatabaseCleanup(clock: Clock)
      modifies this
      ensures shares == Cleaned(old(shares), clock)
      ensures pending == old(pending) && info == old(info) && height == old(height) && minHeight == old(minHeight)
    {
      var kept: seq<Option<Share>> := [];
      for i := 0 to |shares|
        invariant kept == Cleaned(shares[..i], clock)
        invariant shares == old(shares) && pending == old(pending) && info == old(info)
      {
        assert shares[..i + 1][..i] == shares[..i];
        if shares[i].None? { continue; }
        if Wrap64(shares[i].value.time + clock.window) < clock.now { continue; }
        kept := kept + [shares[i]];
      }
      assert shares[..|shares|] == shares;
      shares := kept;
    }

    method ApiStats(address: Bytes)
      modifies this
      ensures info == ApiInfo(old(info), address)
      ensures address in old(info) ==>
                info == old(info)[address := old(info)[address].(balance :=
                  if old(info)[address].balance > 0x7fff_ffff_ffff_ffff then 0 else old(info)[address].balance)]
      ensures address !in old(info) ==> info == old(info)
      ensures pending == old(pending) && shares == old(shares) && height == old(height) && minHeight == old(minHeight)
    {
      if address !in info { return; }
      if info[address].balance > HUGE_BALANCE {
        info := info[address := info[address].(balance := 0)];
      }
    }
  }

  lemma BatchOfNone(cfg: Config, info: map<Bytes, AddrInfo>)
    ensures PaidKeys(cfg, info, []) == [] && Payouts(cfg, info, []) == [] && SettleAll(info, []) == info
  {
  }

  lemma SameBalance(cfg: Config, a: map<Bytes, AddrInfo>, b: map<Bytes, AddrInfo>, k: Bytes)
    requires k in a && k in b && a[k] == b[k]
    ensures OverThreshold(cfg, a, k) == OverThreshold(cfg, b, k)
    ensures Payout(cfg, a, k) == Payout(cfg, b, k)
  {
  }

  lemma EndOfCursor(cfg: Config, info: map<Bytes, AddrInfo>, order: seq<Bytes>)
    requires order != [] ==> |PaidKeys(cfg, info, order[..|order| - 1])| < MAX_WITHDRAW_DESTINATIONS
    ensures !StopsEarly(cfg, info, order)
  {
  }

  lemma {:induction false} CreditAllFails(cfg: Config, height: u64, last: u64, p: Pass, vts: seq<Coinbase>, clock: nat -> Clock, n: nat)
    requires n <= |vts| && CreditAll(cfg, height, last, p, vts[..n], clock).None?
    ensures CreditAll(cfg, height, last, p, vts, clock).None?
    decreases |vts|
  {
    if n == |vts| {
      assert vts[..n] == vts;
    } else {
      var init := vts[..|vts| - 1];
      assert init[..n] == vts[..n];
      CreditAllFails(cfg, height, last, p, init, clock, n);
    }
  }
}
