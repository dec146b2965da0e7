/** Any interleaving of the master's database steps, with a book-keeper beside it: money is
    conserved, never counted twice, and leaves the queue in the order it entered. */
module LedgerRuns {
  import opened GoTypes
  import opened Records
  import opened MapSums
  import opened Pplns
  import opened Rewards
  import opened Maturing
  import opened Withdrawing
  import opened Master

  /** What became of a transfer. The master takes Unreported, a transaction that was broadcast although
      the wallet reported an error, for a failure. */
  datatype Answer = Sent | Failed | Unreported

  /** One atomic step with the answers its environment gave. Unlisted is an update whose listing
      failed, Restart a new process on the same database. */
  datatype Step =
    | Update(height: u64, listing: seq<Coinbase>, clock: nat -> Clock)
    | Unlisted(height: u64)
    | Restart
    | Check(height: u64, block: BlockAnswer, balance: Option<u64>)
    | Pay(order: seq<Bytes>, answer: Answer)
    | Stats(address: Bytes)
    | Found(wallet: Bytes, diff: u64, valid: bool, now: u64)
    | Cleanup(window: Clock)

  /** The stored data and everything that ever happened to it. */
  datatype World = World(
    ledger: Ledger,
    taken: nat,              // coinbase rewards credited to the queue
    orphaned: nat,           // queued amounts dropped with an orphaned block
    matured: nat,            // queued amounts whose block was paid
    doubled: nat,            // the part of matured paid while the wallet held over 50 coins too much
    shortfall: int,          // matured amounts not credited (negative when more was credited)
    seized: nat,             // taken from banned addresses
    sent: nat,               // amounts the wallet reported as transferred
    fees: nat,               // fees kept from transfers
    credited: seq<Coinbase>, // every coinbase ever credited
    appended: seq<UnconfTx>, // every entry ever put in the queue
    removed: seq<UnconfTx>,  // every entry ever taken off it
    minHeight: u64,          // in memory: the height the wallet is asked from, 0 when not yet known
    unreported: nat)         // amounts transferred although the wallet reported an error

  const GENESIS := World(EMPTY_LEDGER, 0, 0, 0, 0, 0, 0, 0, 0, [], [], [], 0, 0)

  function SumRewards(cs: seq<Coinbase>): nat {
    if cs == [] then 0 else SumRewards(cs[..|cs| - 1]) + cs[|cs| - 1].reward
  }

  ghost function QueuedMoney(txs: seq<UnconfTx>): nat {
    if txs == [] then 0 else QueuedMoney(txs[..|txs| - 1]) + Sum(txs[|txs| - 1].bals)
  }

  ghost function AfterUpdate(cfg: Config, w: World, s: Step): World
    requires s.Update?
  {
    var last := w.ledger.pending.lastHeight;
    var credited := Credited(last, SortByHeight(s.listing));
    if !AllGood(credited) then w
    else
      var l := UpdateLedger(cfg, s.height, w.ledger, s.listing, s.clock);
      var old_, new_ := w.ledger.pending.unconfirmedTxs, l.pending.unconfirmedTxs;
      w.(ledger := l,
         taken := w.taken + SumRewards(credited),
         credited := w.credited + credited,
         appended := w.appended + (if |old_| <= |new_| then new_[|old_|..] else []))
  }

  ghost function AfterCheck(cfg: Config, w: World, s: Step): World
    requires s.Check? && ValidConfig(cfg)
  {
    var l := CheckLedger(cfg, s.height, w.ledger, s.block, s.balance);
    match Judge(cfg, s.height, w.ledger, s.block, s.balance)
    case Stay => w
    case Orphan =>
      var head := w.ledger.pending.unconfirmedTxs[0];
      w.(ledger := l, orphaned := w.orphaned + Sum(head.bals), removed := w.removed + [head])
    case Mature(m) =>
      var head := w.ledger.pending.unconfirmedTxs[0];
      var total := Sum(head.bals);
      w.(ledger := l,
         matured := w.matured + total,
         doubled := w.doubled + if Debt(cfg, w.ledger.info, s.balance) > 50.0 then total else 0,
         shortfall := w.shortfall + (total - Sum(Credits(cfg, head.bals, m))),
         seized := w.seized + Sum(Confiscated(cfg, w.ledger.info, head.bals, m)),
         removed := w.removed + [head])
  }

  /** The transfers a call asks the wallet for. */
  ghost function BatchOf(cfg: Config, info: map<Bytes, AddrInfo>, order: seq<Bytes>): seq<TransferOut> {
    Payouts(cfg, info, PaidKeys(cfg, info, order))
  }

  ghost function AfterPay(cfg: Config, w: World, s: Step): World
    requires s.Pay?
  {
    var r := WithdrawOnce(cfg, w.ledger.info, s.order, s.answer.Sent?);
    w.(ledger := w.ledger.(info := r.info),
       sent := w.sent + SumAmounts(r.transfers),
       fees := w.fees + Fees(|r.transfers|, cfg.withdrawalFee),
       unreported := w.unreported
                     + if s.answer.Unreported? then SumAmounts(BatchOf(cfg, w.ledger.info, s.order)) else 0)
  }

  function WithShares(w: World, shares: seq<Option<Share>>): World {
    w.(ledger := w.ledger.(shares := shares))
  }

  function NextMinHeight(minHeight: u64, lastHeight: u64, s: Step): u64 {
    match s
    case Update(height, _, _) => NextRequest(FirstRequest(minHeight, height), lastHeight)
    case Unlisted(height) => FirstRequest(minHeight, height)
    case Restart => 0
    case _ => minHeight
  }

  ghost function After(cfg: Config, w: World, s: Step): World
    requires ValidConfig(cfg)
  {
    Booked(cfg, w, s).(minHeight := NextMinHeight(w.minHeight, w.ledger.pending.lastHeight, s))
  }

  /** The stored data and the books after a step. */
  ghost function Booked(cfg: Config, w: World, s: Step): World
    requires ValidConfig(cfg)
  {
    match s
    case Update(_, _, _) => AfterUpdate(cfg, w, s)
    case Unlisted(_) => w
    case Restart => w
    case Check(_, _, _) => AfterCheck(cfg, w, s)
    case Pay(_, _) => AfterPay(cfg, w, s)
    case Stats(address) => w.(ledger := w.ledger.(info := ApiInfo(w.ledger.info, address)))
    case Found(wallet, diff, valid, now) =>
      (match Route(cfg, wallet, valid)
       case None => w
       case Some(r) => WithShares(w, w.ledger.shares + [Some(Share(r, diff, now))]))
    case Cleanup(clock) => WithShares(w, Cleaned(w.ledger.shares, clock))
  }

  ghost function Run(cfg: Config, steps: seq<Step>): World
    requires ValidConfig(cfg)
  {
    if steps == [] then GENESIS else After(cfg, Run(cfg, steps[..|steps| - 1]), steps[|steps| - 1])
  }

  /** What a step does to the stored data alone. */
  ghost function NextLedger(cfg: Config, l: Ledger, s: Step): Ledger
    requires ValidConfig(cfg)
  {
    match s
    case Update(height, listing, clock) => UpdateLedger(cfg, height, l, listing, clock)
    case Unlisted(_) => l
    case Restart => l
    case Check(height, block, balance) => CheckLedger(cfg, height, l, block, balance)
    case Pay(order, answer) => l.(info := WithdrawOnce(cfg, l.info, order, answer.Sent?).info)
    case Stats(address) => l.(info := ApiInfo(l.info, address))
    case Found(wallet, diff, valid, now) =>
      l.(shares := l.shares + match Route(cfg, wallet, valid)
                              case None => []
                              case Some(r) => [Some(Share(r, diff, now))])
    case Cleanup(clock) => l.(shares := Cleaned(l.shares, clock))
  }

  /** The process itself, taking one step. */
  method Perform(pool: Pool, s: Step)
    requires ValidConfig(pool.cfg)
    requires s.Pay? ==> Enumerates(s.order, pool.info)
    modifies pool
    ensures pool.Stored() == NextLedger(pool.cfg, old(pool.Stored()), s)
    ensures pool.minHeight == NextMinHeight(old(pool.minHeight), old(pool.pending.lastHeight), s)
  {
    hide UpdateLedger, CheckLedger, WithdrawOnce, Maturing.Judge, Cleaned, ApiInfo, Route, FirstRequest, NextRequest;
    match s
    case Update(height, listing, clock) =>
      pool.height := height;
      var _ := pool.UpdatePendingBals(Some(listing), clock);
    case Unlisted(height) =>
      pool.height := height;
      var _ := pool.UpdatePendingBals(None, _ => Clock(0, 0));
    case Restart =>
      pool.height, pool.minHeight, pool.recentWithdrawals := 0, 0, [];
    case Check(height, block, balance) =>
      pool.height := height;
      var _ := pool.CheckWithdraw(block, balance);
    case Pay(order, answer) =>
      var _ := pool.Withdraw(order, answer.Sent?);
    case Stats(address) => pool.ApiStats(address);
    case Found(wallet, diff, valid, now) => pool.OnShareFound(wallet, diff, valid, now);
    case Cleanup(clock) => pool.DatabaseCleanup(clock);
  }

  /** The book-keeper only watches: the data of a run change exactly as the process changes them,
      an aborted update leaving them alone. */
  lemma BooksFollowTheProcess(cfg: Config, w: World, s: Step)
    requires ValidConfig(cfg)
    ensures After(cfg, w, s).ledger == NextLedger(cfg, w.ledger, s)
    ensures After(cfg, w, s).minHeight == NextMinHeight(w.minHeight, w.ledger.pending.lastHeight, s)
  {
    hide CreditAll, Credited, SortByHeight, SetPendings, WithdrawOnce, Cleaned, MatureInfo, Maturing.Judge, Debt, Sum;
    if s.Update? {
      CreditAllShape(cfg, s.height, StartPass(w.ledger), SortByHeight(s.listing), s.clock);
    }
  }

  // ----- conservation -----

  /** Coinbases pay something, shares carry some difficulty, the cursor visits every address. */
  ghost predicate Sound(w: World, s: Step) {
    && (s.Update? ==> forall c :: c in s.listing ==> c.reward > 0)
    && (s.Found? ==> s.diff > 0)
    && (s.Pay? ==> Enumerates(s.order, w.ledger.info))
  }

  ghost predicate SoundRun(cfg: Config, steps: seq<Step>)
    requires ValidConfig(cfg)
  {
    steps == [] || (SoundRun(cfg, steps[..|steps| - 1]) && Sound(Run(cfg, steps[..|steps| - 1]), steps[|steps| - 1]))
  }

  ghost predicate Positive(shares: seq<Option<Share>>) {
    forall x :: x in shares && x.Some? ==> x.value.diff > 0
  }

  ghost predicate PositiveQueue(txs: seq<UnconfTx>) {
    forall tx :: tx in txs ==> Sum(tx.bals) > 0
  }

  ghost predicate Conserved(w: World) {
    && w.taken == QueuedMoney(w.ledger.pending.unconfirmedTxs) + w.orphaned + w.matured
    && w.matured == Sum(Holdings(w.ledger.info)) + w.seized + w.shortfall
    && w.shortfall + w.doubled >= 0
    && w.doubled <= w.matured
  }

  ghost predicate Books(cfg: Config, w: World) {
    && Conserved(w)
    && w.appended == w.removed + w.ledger.pending.unconfirmedTxs
    && w.sent + w.fees == Sum(PaidAmounts(w.ledger.info))
    && Positive(w.ledger.shares)
    && PositiveQueue(w.ledger.pending.unconfirmedTxs)
  }

  /** The bound under which nothing in the ledger can reach 2^63. */
  ghost predicate Bounded(w: World) {
    w.taken + w.doubled <= HUGE_BALANCE
  }

  // -- the update step

  lemma {:induction false} PrunedPositive(shares: seq<Option<Share>>, clock: Clock)
    requires Positive(shares)
    ensures Positive(Pruned(shares, clock)) && Positive(Cleaned(shares, clock))
  {
    hide Live;
    if shares != [] {
      var n := |shares| - 1;
      assert shares[n] in shares && shares == shares[..n] + [shares[n]];
      PrunedPositive(shares[..n], clock);
    }
  }

  lemma {:induction false} TotalsPositive(shares: seq<Option<Share>>, clock: Clock)
    requires Positive(shares)
    ensures var totals := MinersTotals(shares, clock);
            totals == map[] || Sum(totals) > 0
  {
    hide Sum, Live;
    if shares != [] {
      var n := |shares| - 1;
      var before := MinersTotals(shares[..n], clock);
      assert shares[n] in shares && shares == shares[..n] + [shares[n]];
      TotalsPositive(shares[..n], clock);
      if Counts(shares[n], clock) {
        var sh := shares[n].value;
        SumUpdate(before, sh.wallet, Get(before, sh.wallet) + sh.diff);
      }
    }
  }

  /** One credited coinbase puts exactly its reward into the queue. */
  lemma EntryHoldsReward(cfg: Config, shares: seq<Option<Share>>, vt: Coinbase, clock: Clock)
    requires ValidConfig(cfg) && Positive(shares) && GoodHash(vt.hash)
    ensures Sum(QueueEntry(cfg, shares, vt, clock).bals) == vt.reward
  {
    hide Split, FairPart, Wrap64, Sum;
    TotalsPositive(shares, clock);
    SplitIsExactAndFair(cfg, vt.reward, MinersTotals(shares, clock));
  }

  lemma QueuedMoneyAppend(txs: seq<UnconfTx>, tx: UnconfTx)
    ensures QueuedMoney(txs + [tx]) == QueuedMoney(txs) + Sum(tx.bals)
  {
    assert (txs + [tx])[..|txs|] == txs;
  }

  lemma SumRewardsAppend(cs: seq<Coinbase>, c: Coinbase)
    ensures SumRewards(cs + [c]) == SumRewards(cs) + c.reward
  {
    assert (cs + [c])[..|cs|] == cs;
  }

  lemma {:induction false} CreditAllMoney(cfg: Config, height: u64, p: Pass, vts: seq<Coinbase>, clock: nat -> Clock)
    requires ValidConfig(cfg) && Positive(p.shares) && PositiveQueue(p.txs)
    requires forall c :: c in vts ==> c.reward > 0
    ensures var r := CreditAll(cfg, height, p.nextHeight, p, vts, clock);
            r.Some? ==>
              && QueuedMoney(r.value.txs) == QueuedMoney(p.txs) + SumRewards(Credited(p.nextHeight, vts))
              && Positive(r.value.shares) && PositiveQueue(r.value.txs)
  {
    hide Pruned, MinersTotals, PendingsAfter, QueueEntry, QueuedMoney, SumRewards, Sum;
    if vts == [] {
      assert SumRewards(Credited(p.nextHeight, vts)) == 0 by { NoRewards(); }
    } else {
      var n := |vts| - 1;
      assert vts[n] in vts;
      CreditAllMoney(cfg, height, p, vts[..n], clock);
      var r := CreditAll(cfg, height, p.nextHeight, p, vts[..n], clock);
      if r.Some? && vts[n].topoheight > p.nextHeight && GoodHash(vts[n].hash) {
        var entry := QueueEntry(cfg, r.value.shares, vts[n], clock(n));
        EntryHoldsReward(cfg, r.value.shares, vts[n], clock(n));
        PrunedPositive(r.value.shares, clock(n));
        QueuedMoneyAppend(r.value.txs, entry);
        SumRewardsAppend(Credited(p.nextHeight, vts[..n]), vts[n]);
      }
    }
  }

  lemma NoRewards()
    ensures SumRewards([]) == 0
  {
  }

  lemma PendingsHoldNothing(info: map<Bytes, AddrInfo>, pendings: map<Bytes, u64>)
    ensures Holdings(SetPendings(info, pendings)) == Holdings(info)
    ensures PaidAmounts(SetPendings(info, pendings)) == PaidAmounts(info)
  {
  }

  lemma UpdateKeepsBooks(cfg: Config, w: World, s: Step)
    requires ValidConfig(cfg) && s.Update? && Books(cfg, w) && Sound(w, s)
    ensures Books(cfg, AfterUpdate(cfg, w, s))
  {
    hide CreditAll, Credited, SortByHeight, SetPendings, QueuedMoney, SumRewards, Sum, Holdings, PaidAmounts;
    var p, vts := StartPass(w.ledger), SortByHeight(s.listing);
    SortKeepsMembers(s.listing);
    CreditAllShape(cfg, s.height, p, vts, s.clock);
    CreditAllMoney(cfg, s.height, p, vts, s.clock);
    var r := CreditAll(cfg, s.height, p.nextHeight, p, vts, s.clock);
    if r.Some? {
      PendingsHoldNothing(w.ledger.info, r.value.pendings);
      assert r.value.txs == r.value.txs[..|p.txs|] + r.value.txs[|p.txs|..];
    }
  }

  // -- the check step

  lemma {:induction false} QueuedMoneyOfHead(txs: seq<UnconfTx>)
    requires txs != []
    ensures QueuedMoney(txs) == Sum(txs[0].bals) + QueuedMoney(txs[1..])
  {
    hide Sum;
    if |txs| == 1 {
      assert txs[1..] == [] && txs[..0] == [];
    } else {
      var n := |txs| - 1;
      QueuedMoneyOfHead(txs[..n]);
      assert txs[..n][1..] == txs[1..][..n - 1];
    }
  }

  lemma PaidUpdate(info: map<Bytes, AddrInfo>, k: Bytes, x: AddrInfo)
    requires x.paid == Lookup(info, k).paid
    ensures Sum(PaidAmounts(info[k := x])) == Sum(PaidAmounts(info))
  {
    hide Sum;
    assert PaidAmounts(info[k := x]) == PaidAmounts(info)[k := x.paid];
    SumUpdate(PaidAmounts(info), k, x.paid);
  }

  /** Maturing does not touch what has been paid. */
  lemma {:induction false} MaturePaid(cfg: Config, info: map<Bytes, AddrInfo>, bals: map<Bytes, u64>, m: Multiplier)
    ensures Sum(PaidAmounts(MatureInfo(cfg, info, bals, m))) == Sum(PaidAmounts(info))
    decreases |bals|
  {
    hide Credit, Sum, Wrap64, MatureInfo, PaidAmounts;
    if k :| k in bals {
      MatureStep(cfg, info, bals, k, m);
      MaturePaid(cfg, info, bals - {k}, m);
      PaidUpdate(MatureInfo(cfg, info, bals - {k}, m), k, CreditInfo(cfg, k, Lookup(info, k), Credit(cfg, bals[k], m)));
    } else {
      MatureNone(cfg, info, bals, m);
    }
  }

  /** In integers: never more than twice the queued total, and more than once only for a wallet
      that holds over 50 coins too much. */
  lemma CreditsWithinTotal(cfg: Config, bals: map<Bytes, u64>, minerReward: u64, debt: real)
    requires 0 < Sum(bals) && 2 * Sum(bals) < TWO64
    ensures var m := BlockMultiplier(minerReward, Wrap64(Sum(bals)), debt);
            Sum(Credits(cfg, bals, m)) <= if debt > 50.0 then 2 * Sum(bals) else Sum(bals)
  {
    hide BlockMultiplier, Sum, Wrap64, Credits;
    var total, f := Sum(bals), DebtFactor(debt);
    assert Scaled(total, f) == total as real * f;
    MaturedWithinReward(cfg, bals, minerReward, debt);
    var least := Min(minerReward, total);
    assert least <= total;
    assert f == 2.0 || f == 0.5 || f == 1.0;
  }

  lemma CheckKeepsBooks(cfg: Config, w: World, s: Step)
    requires ValidConfig(cfg) && s.Check? && Books(cfg, w) && Bounded(w)
    ensures Books(cfg, AfterCheck(cfg, w, s))
  {
    hide QueuedMoney, Sum, Holdings, PaidAmounts, MatureInfo, Credits, Confiscated, Debt, BlockMultiplier, Wrap64;
    var v := Judge(cfg, s.height, w.ledger, s.block, s.balance);
    if !v.Stay? {
      var txs, info := w.ledger.pending.unconfirmedTxs, w.ledger.info;
      var bals := txs[0].bals;
      assert txs[0] in txs && txs == [txs[0]] + txs[1..];
      assert w.removed + txs == (w.removed + [txs[0]]) + txs[1..];
      QueuedMoneyOfHead(txs);
      if v.Mature? {
        CreditsWithinTotal(cfg, bals, s.block.minerReward.value, Debt(cfg, info, s.balance));
        MatureHoldings(cfg, info, bals, v.m);
        MaturePaid(cfg, info, bals, v.m);
      }
    }
  }

  // -- the payout step and the rest

  lemma HoldingsBounded(cfg: Config, w: World)
    requires Books(cfg, w) && Bounded(w)
    ensures Sum(Holdings(w.ledger.info)) <= HUGE_BALANCE
  {
  }

  lemma PayKeepsBooks(cfg: Config, w: World, s: Step)
    requires s.Pay? && Books(cfg, w) && Bounded(w) && Sound(w, s)
    requires cfg.withdrawalFee <= cfg.minWithdrawal
    ensures Books(cfg, AfterPay(cfg, w, s))
  {
    hide QueuedMoney, Sum, Holdings, PaidAmounts, PaidKeys, SettleAll, StopsEarly;
    HoldingsBounded(cfg, w);
    BatchConservesMoney(cfg, w.ledger.info, s.order);
    assert SumAmounts([]) == 0 && Fees(0, cfg.withdrawalFee) == 0;
  }

  /** The API's reset of huge balances never fires. */
  lemma StatsChangesNothing(cfg: Config, w: World, address: Bytes)
    requires Books(cfg, w) && Bounded(w)
    ensures ApiInfo(w.ledger.info, address) == w.ledger.info
  {
    hide Sum, Holdings;
    HoldingsBounded(cfg, w);
    HeldBy(w.ledger.info, address);
  }

  lemma StepKeepsBooks(cfg: Config, w: World, s: Step)
    requires ValidConfig(cfg) && cfg.withdrawalFee <= cfg.minWithdrawal
    requires Books(cfg, w) && Bounded(w) && Sound(w, s)
    ensures Books(cfg, After(cfg, w, s))
  {
    hide AfterUpdate, AfterCheck, AfterPay, Books, Cleaned, NextMinHeight;
    SameBooks(cfg, Booked(cfg, w, s), After(cfg, w, s));
    match s
    case Unlisted(_) =>
    case Restart =>
    case Update(_, _, _) => UpdateKeepsBooks(cfg, w, s);
    case Check(_, _, _) => CheckKeepsBooks(cfg, w, s);
    case Pay(_, _) => PayKeepsBooks(cfg, w, s);
    case Stats(address) => StatsChangesNothing(cfg, w, address);
    case Found(_, _, _, _) => FoundKeepsBooks(cfg, w, s);
    case Cleanup(clock) =>
      CleanupKeepsBooks(cfg, w, clock);
  }

  lemma SameBooks(cfg: Config, w: World, w': World)
    requires w' == w.(minHeight := w'.minHeight)
    ensures Books(cfg, w) ==> Books(cfg, w')
  {
  }

  lemma CleanupKeepsBooks(cfg: Config, w: World, clock: Clock)
    requires Books(cfg, w)
    ensures Books(cfg, WithShares(w, Cleaned(w.ledger.shares, clock)))
  {
    hide Cleaned;
    PrunedPositive(w.ledger.shares, clock);
    SharesKeepBooks(cfg, w, Cleaned(w.ledger.shares, clock));
  }

  lemma FoundKeepsBooks(cfg: Config, w: World, s: Step)
    requires ValidConfig(cfg) && s.Found? && Books(cfg, w) && Sound(w, s)
    ensures Books(cfg, Booked(cfg, w, s))
  {
    hide Conserved, Sum, PaidAmounts, PositiveQueue, QueuedMoney;
    SharesKeepBooks(cfg, w, Booked(cfg, w, s).ledger.shares);
  }

  lemma SharesKeepBooks(cfg: Config, w: World, shares: seq<Option<Share>>)
    requires Books(cfg, w) && Positive(shares)
    ensures Books(cfg, WithShares(w, shares))
  {
  }

  lemma TakenGrows(cfg: Config, w: World, s: Step)
    requires ValidConfig(cfg)
    ensures w.taken <= After(cfg, w, s).taken && w.doubled <= After(cfg, w, s).doubled
  {
  }

  /** Conservation over every run: the rewards credited are the amounts still queued, orphaned
      and matured; what has matured is what the addresses hold or were paid, what banned addresses
      lost, and the shortfall, which is negative at most by what was paid double; what left the
      wallet is what is booked as paid; and the queue gives entries back in the order it got them. */
  lemma {:induction false} MoneyIsConserved(cfg: Config, steps: seq<Step>)
    requires ValidConfig(cfg) && cfg.withdrawalFee <= cfg.minWithdrawal
    requires SoundRun(cfg, steps) && Bounded(Run(cfg, steps))
    ensures Books(cfg, Run(cfg, steps))
  {
    hide After, Sound, Bounded;
    if steps == [] {
      GenesisBooks(cfg);
    } else {
      var n := |steps| - 1;
      var w := Run(cfg, steps[..n]);
      TakenGrows(cfg, w, steps[n]);
      assert Bounded(w) by { BoundedBefore(w, After(cfg, w, steps[n])); }
      MoneyIsConserved(cfg, steps[..n]);
      StepKeepsBooks(cfg, w, steps[n]);
    }
  }

  lemma BoundedBefore(w: World, later: World)
    requires w.taken <= later.taken && w.doubled <= later.doubled && Bounded(later)
    ensures Bounded(w)
  {
  }

  lemma GenesisBooks(cfg: Config)
    ensures Books(cfg, GENESIS)
  {
    hide Books;
    EmptyBooks(cfg, GENESIS);
  }

  lemma EmptyBooks(cfg: Config, w: World)
    requires w.ledger.info == map[] && w.ledger.pending.unconfirmedTxs == [] && w.ledger.shares == []
    requires w.taken == w.orphaned == w.matured == w.doubled == w.seized == w.sent == w.fees == 0 && w.shortfall == 0
    requires w.appended == w.removed == []
    ensures Books(cfg, w)
  {
    hide Sum, Holdings, PaidAmounts, QueuedMoney, Positive, PositiveQueue;
    NothingHeld(w.ledger.info);
    NothingQueued(w.ledger);
  }

  lemma NothingQueued(l: Ledger)
    requires l.pending.unconfirmedTxs == [] && l.shares == []
    ensures QueuedMoney(l.pending.unconfirmedTxs) == 0 && PositiveQueue(l.pending.unconfirmedTxs) && Positive(l.shares)
  {
    hide Sum;
  }

  lemma NothingHeld(info: map<Bytes, AddrInfo>)
    requires info == map[]
    ensures Sum(Holdings(info)) == 0 && Sum(PaidAmounts(info)) == 0
  {
    hide Sum;
    assert Holdings(info) == map[] && PaidAmounts(info) == map[];
    SumOfNone<Bytes>();
  }

  /** While no block was paid double, everything transferred, kept as a fee or still owed as a
      balance fits into the rewards that have left the queue for good. */
  lemma NeverPaysMoreThanEarned(cfg: Config, steps: seq<Step>)
    requires ValidConfig(cfg) && cfg.withdrawalFee <= cfg.minWithdrawal
    requires SoundRun(cfg, steps) && Bounded(Run(cfg, steps))
    requires Run(cfg, steps).doubled == 0
    ensures var w := Run(cfg, steps);
            && w.sent + w.fees + Sum(Balances(w.ledger.info)) + w.seized
                 <= w.taken - QueuedMoney(w.ledger.pending.unconfirmedTxs) - w.orphaned
            && w.sent + w.fees + Sum(Balances(w.ledger.info)) < TWO64
  {
    hide Sum, QueuedMoney, PositiveQueue, Positive;
    MoneyIsConserved(cfg, steps);
    var info := Run(cfg, steps).ledger.info;
    SumAdd(Balances(info), PaidAmounts(info), Holdings(info));
  }
}
