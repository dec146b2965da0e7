/** What an update leaves in the database, in terms of the shares that were stored and the readings of
    the clock: which shares survive, what every new queue entry pays to whom, and what every address
    shows as pending. */
module QueueContents {
  import opened GoTypes
  import opened Records
  import opened MapSums
  import opened Pplns
  import opened Rewards
  import opened Master
  import LedgerRuns

  // ----- shares in the window -----

  /** At every one of some readings of window and time. */
  predicate InWindow(sh: Share, clocks: seq<Clock>) {
    forall c :: c in clocks ==> (sh.time + c.window) % TWO64 >= c.now
  }

  /** The difficulty of wallet w. */
  function Difficulty(shares: seq<Option<Share>>, clocks: seq<Clock>, w: Bytes): nat {
    if shares == [] then 0
    else
      var x := shares[|shares| - 1];
      Difficulty(shares[..|shares| - 1], clocks, w)
        + if x.Some? && x.value.wallet == w && InWindow(x.value, clocks) then x.value.diff else 0
  }

  function TotalDifficulty(shares: seq<Option<Share>>, clocks: seq<Clock>): nat {
    if shares == [] then 0
    else
      var x := shares[|shares| - 1];
      TotalDifficulty(shares[..|shares| - 1], clocks) + if x.Some? && InWindow(x.value, clocks) then x.value.diff else 0
  }

  /** The wallets with a share in the window. */
  ghost function Miners(shares: seq<Option<Share>>, clocks: seq<Clock>): set<Bytes> {
    set x | x in shares && x.Some? && InWindow(x.value, clocks) :: x.value.wallet
  }

  /** The records left: those that do not decode and those in the window, in their order. */
  function InWindowOnly(shares: seq<Option<Share>>, clocks: seq<Clock>): seq<Option<Share>> {
    if shares == [] then []
    else
      var x := shares[|shares| - 1];
      InWindowOnly(shares[..|shares| - 1], clocks) + if x.None? || InWindow(x.value, clocks) then [x] else []
  }

  lemma InWindowOfOne(sh: Share, clock: Clock)
    ensures InWindow(sh, [clock]) <==> (sh.time + clock.window) % TWO64 >= clock.now
    ensures InWindow(sh, [clock]) <==> Live(sh, clock)
    ensures InWindow(sh, [])
  {
    assert clock in [clock];
  }

  lemma InWindowOfBoth(sh: Share, a: seq<Clock>, b: seq<Clock>)
    ensures InWindow(sh, a + b) <==> InWindow(sh, a) && InWindow(sh, b)
  {
    assert forall c :: c in a + b <==> c in a || c in b;
  }

  /** The pass over the bucket drops exactly the outdated shares: it treats every record for itself, and
      keeps one that does not decode or is in the window. */
  lemma {:induction false} ScanKeepsExactly(a: seq<Option<Share>>, b: seq<Option<Share>>, x: Option<Share>, clock: Clock)
    ensures Pruned([], clock) == [] && Pruned(a + b, clock) == Pruned(a, clock) + Pruned(b, clock)
    ensures Pruned([x], clock) == if x.None? || (x.value.time + clock.window) % TWO64 >= clock.now then [x] else []
    decreases |b|
  {
    assert [x][..0] == [];
    if b == [] {
      assert a + b == a;
    } else {
      var n := |b| - 1;
      assert (a + b)[..|a + b| - 1] == a + b[..n];
      ScanKeepsExactly(a, b[..n], x, clock);
    }
  }

  /** The start-up clean-up keeps exactly the records that decode and are in the window. */
  lemma {:induction false} CleanupKeepsExactly(a: seq<Option<Share>>, b: seq<Option<Share>>, x: Option<Share>, clock: Clock)
    ensures Cleaned([], clock) == [] && Cleaned(a + b, clock) == Cleaned(a, clock) + Cleaned(b, clock)
    ensures Cleaned([x], clock) == if x.Some? && (x.value.time + clock.window) % TWO64 >= clock.now then [x] else []
    decreases |b|
  {
    assert [x][..0] == [];
    if b == [] {
      assert a + b == a;
    } else {
      var n := |b| - 1;
      assert (a + b)[..|a + b| - 1] == a + b[..n];
      CleanupKeepsExactly(a, b[..n], x, clock);
    }
  }

  lemma {:induction false} PrunedIsInWindow(shares: seq<Option<Share>>, clock: Clock)
    ensures Pruned(shares, clock) == InWindowOnly(shares, [clock])
  {
    hide InWindow, Live;
    if shares != [] {
      var x := shares[|shares| - 1];
      PrunedIsInWindow(shares[..|shares| - 1], clock);
      if x.Some? { InWindowOfOne(x.value, clock); }
    }
  }

  /** Filtering twice is filtering by all readings, and the sums of what is left are the sums by all
      readings. */
  lemma {:induction false} FilterTwice(shares: seq<Option<Share>>, a: seq<Clock>, b: seq<Clock>)
    ensures InWindowOnly(InWindowOnly(shares, a), b) == InWindowOnly(shares, a + b)
    ensures forall w :: Difficulty(InWindowOnly(shares, a), b, w) == Difficulty(shares, a + b, w)
    ensures TotalDifficulty(InWindowOnly(shares, a), b) == TotalDifficulty(shares, a + b)
  {
    hide InWindow;
    if shares != [] {
      var init, x := shares[..|shares| - 1], shares[|shares| - 1];
      FilterTwice(init, a, b);
      if x.Some? { InWindowOfBoth(x.value, a, b); }
      var kept := InWindowOnly(init, a);
      assert kept + [] == kept && (kept + [x])[..|kept|] == kept;
    }
  }

  lemma {:induction false} KeptMembers(shares: seq<Option<Share>>, clocks: seq<Clock>)
    ensures forall x :: x in InWindowOnly(shares, clocks) <==> x in shares && (x.None? || InWindow(x.value, clocks))
  {
    hide InWindow;
    if shares != [] {
      var init, x := shares[..|shares| - 1], shares[|shares| - 1];
      KeptMembers(init, clocks);
      assert shares == init + [x];
    }
  }

  lemma MinersOfKept(shares: seq<Option<Share>>, a: seq<Clock>, b: seq<Clock>)
    ensures Miners(InWindowOnly(shares, a), b) == Miners(shares, a + b)
  {
    hide InWindow;
    KeptMembers(shares, a);
    forall x: Option<Share> | x.Some?
      ensures InWindow(x.value, a + b) <==> InWindow(x.value, a) && InWindow(x.value, b)
    {
      InWindowOfBoth(x.value, a, b);
    }
  }

  lemma NoReadings(shares: seq<Option<Share>>)
    ensures InWindowOnly(shares, []) == shares
  {
  }

  lemma MinersStep(shares: seq<Option<Share>>, x: Option<Share>, clocks: seq<Clock>)
    ensures Miners([], clocks) == {}
    ensures Miners(shares + [x], clocks)
         == Miners(shares, clocks) + if x.Some? && InWindow(x.value, clocks) then {x.value.wallet} else {}
  {
    hide InWindow;
    forall y
      ensures y in shares + [x] <==> y in shares || y == x
    {
    }
  }

  lemma DifficultyStep(shares: seq<Option<Share>>, x: Option<Share>, clocks: seq<Clock>, w: Bytes)
    ensures Difficulty(shares + [x], clocks, w) == Difficulty(shares, clocks, w)
              + if x.Some? && x.value.wallet == w && InWindow(x.value, clocks) then x.value.diff else 0
    ensures TotalDifficulty(shares + [x], clocks) == TotalDifficulty(shares, clocks)
              + if x.Some? && InWindow(x.value, clocks) then x.value.diff else 0
  {
    hide InWindow;
    assert (shares + [x])[..|shares|] == shares;
  }

  lemma TotalsStep(shares: seq<Option<Share>>, x: Option<Share>, clock: Clock)
    ensures var before, after := MinersTotals(shares, clock), MinersTotals(shares + [x], clock);
            after == if x.Some? && InWindow(x.value, [clock])
                     then before[x.value.wallet := Get(before, x.value.wallet) + x.value.diff] else before
  {
    hide InWindow, Live;
    assert (shares + [x])[..|shares|] == shares;
    if x.Some? { InWindowOfOne(x.value, clock); }
  }

  /** The table of the pass, in terms of the stored shares. */
  lemma {:induction false} TotalsMeaning(shares: seq<Option<Share>>, clock: Clock)
    ensures MinersTotals(shares, clock).Keys == Miners(shares, [clock])
    ensures forall w :: Get(MinersTotals(shares, clock), w) == Difficulty(shares, [clock], w)
    ensures Sum(MinersTotals(shares, clock)) == TotalDifficulty(shares, [clock])
  {
    hide InWindow, Sum, Miners, MinersTotals, Difficulty, TotalDifficulty;
    if shares == [] {
      NothingStored(clock);
    } else {
      var init, x := shares[..|shares| - 1], shares[|shares| - 1];
      TotalsMeaning(init, clock);
      assert shares == init + [x];
      MinersStep(init, x, [clock]);
      TotalsStep(init, x, clock);
      forall w
        ensures Get(MinersTotals(shares, clock), w) == Difficulty(shares, [clock], w)
      {
        DifficultyStep(init, x, [clock], w);
      }
      DifficultyStep(init, x, [clock], []);
      if x.Some? {
        var before := MinersTotals(init, clock);
        SumUpdate(before, x.value.wallet, Get(before, x.value.wallet) + x.value.diff);
      }
    }
  }

  lemma NothingStored(clock: Clock)
    ensures MinersTotals([], clock) == map[] && Miners([], [clock]) == {}
    ensures (forall w :: Difficulty([], [clock], w) == 0) && TotalDifficulty([], [clock]) == 0
    ensures Sum<Bytes>(map[]) == 0
  {
  }

  // ----- the entries -----

  /** The queue entry of coinbase c, given the shares stored before the update and the readings up to
      this coinbase: it names the miners and the fee address; every other miner gets its proportional
      part of the reward after the fee, rounded down, and the fee address the rest. */
  ghost predicate EntryOf(cfg: Config, shares: seq<Option<Share>>, clocks: seq<Clock>, c: Coinbase, tx: UnconfTx) {
    var miners, total := Miners(shares, clocks), TotalDifficulty(shares, clocks);
    && tx.unlockHeight == (c.topoheight + cfg.minConfs) % TWO64
    && Some(tx.txnBlockHash) == c.hash
    && (miners == {} || total > 0 ==>
          && tx.bals.Keys == miners + {cfg.feeAddress}
          && Sum(tx.bals) == c.reward
          && forall w :: w in miners && w != cfg.feeAddress ==>
               tx.bals[w] == PartOf(Difficulty(shares, clocks, w), total, cfg.feePercent, c.reward))
  }

  /** floor(d / total * reward * (100 - fee) / 100) */
  function PartOf(d: nat, total: nat, feePercent: real, reward: u64): int
    requires total > 0
  {
    Proportion(d, total, AfterFee(feePercent, reward)).Floor
  }

  function Proportion(d: nat, total: nat, amount: real): real
    requires total > 0
  {
    d as real * amount / total as real
  }

  function AfterFee(feePercent: real, reward: u64): real {
    reward as real * (100.0 - feePercent) / 100.0
  }

  /** The readings of an update, one for each credited coinbase. */
  function Readings(last: u64, vts: seq<Coinbase>, clock: nat -> Clock): seq<Clock> {
    if vts == [] then []
    else
      var n := |vts| - 1;
      Readings(last, vts[..n], clock) + if vts[n].topoheight > last then [clock(n)] else []
  }

  lemma FairPartIs(cfg: Config, reward: u64, totals: map<Bytes, nat>, tot: nat, w: Bytes)
    requires w in totals && tot > 0
    ensures FairPart(cfg, reward, totals, tot, w) == PartOf(Get(totals, w), tot, cfg.feePercent, reward)
  {
    hide RewardAfterFee, AfterFee, Exact, Proportion;
    AfterFeeIs(cfg, reward);
    ExactIs(totals[w], tot, AfterFee(cfg.feePercent, reward));
  }

  lemma ExactIs(v: nat, tot: nat, r: real)
    requires tot > 0
    ensures Exact(v, tot, r) == Proportion(v, tot, r)
  {
  }

  lemma AfterFeeIs(cfg: Config, reward: u64)
    ensures RewardAfterFee(cfg, reward) == AfterFee(cfg.feePercent, reward)
  {
  }

  lemma SplitMeaning(cfg: Config, shares: seq<Option<Share>>, vt: Coinbase, clock: Clock)
    requires ValidConfig(cfg) && GoodHash(vt.hash)
    ensures EntryOf(cfg, shares, [clock], vt, QueueEntry(cfg, shares, vt, clock))
  {
    hide MinersTotals, Split, Sum, InWindow, FairPart, PartOf, Miners, Difficulty, TotalDifficulty;
    var totals := MinersTotals(shares, clock);
    TotalsMeaning(shares, clock);
    assert totals == map[] <==> totals.Keys == {};
    var miners, total := Miners(shares, [clock]), TotalDifficulty(shares, [clock]);
    var tx := QueueEntry(cfg, shares, vt, clock);
    assert tx.unlockHeight == (vt.topoheight + cfg.minConfs) % TWO64 && Some(tx.txnBlockHash) == vt.hash;
    if miners == {} || total > 0 {
      SplitIsExactAndFair(cfg, vt.reward, totals);
      assert tx.bals.Keys == miners + {cfg.feeAddress} && Sum(tx.bals) == vt.reward;
      forall w | w in miners && w != cfg.feeAddress
        ensures tx.bals[w] == PartOf(Difficulty(shares, [clock], w), total, cfg.feePercent, vt.reward)
      {
        assert w in totals;
        assert tx.bals[w] == FairPart(cfg, vt.reward, totals, total, w);
        FairPartIs(cfg, vt.reward, totals, total, w);
      }
    }
  }

  /** After filtering by earlier readings. */
  lemma EntryAfter(cfg: Config, shares: seq<Option<Share>>, used: seq<Clock>, clock: Clock, c: Coinbase, tx: UnconfTx)
    requires EntryOf(cfg, InWindowOnly(shares, used), [clock], c, tx)
    ensures EntryOf(cfg, shares, used + [clock], c, tx)
  {
    hide InWindow, Sum, InWindowOnly, Difficulty, TotalDifficulty, Miners, PartOf;
    FilterTwice(shares, used, [clock]);
    MinersOfKept(shares, used, [clock]);
  }

  ghost predicate EntriesFrom(cfg: Config, shares: seq<Option<Share>>, used: seq<Clock>, credited: seq<Coinbase>, more: seq<UnconfTx>) {
    && |used| == |credited| == |more|
    && forall i :: 0 <= i < |more| ==> EntryOf(cfg, shares, used[..i + 1], credited[i], more[i])
  }

  lemma OneMoreEntry(cfg: Config, shares: seq<Option<Share>>, used: seq<Clock>, credited: seq<Coinbase>, more: seq<UnconfTx>,
                     clock: Clock, c: Coinbase, tx: UnconfTx)
    requires EntriesFrom(cfg, shares, used, credited, more) && EntryOf(cfg, shares, used + [clock], c, tx)
    ensures EntriesFrom(cfg, shares, used + [clock], credited + [c], more + [tx])
  {
    hide EntryOf;
    forall i | 0 <= i < |more| + 1
      ensures EntryOf(cfg, shares, (used + [clock])[..i + 1], (credited + [c])[i], (more + [tx])[i])
    {
      if i < |more| {
        assert (used + [clock])[..i + 1] == used[..i + 1];
      } else {
        assert (used + [clock])[..i + 1] == used + [clock];
      }
    }
  }

  lemma {:induction false} PassMeaning(cfg: Config, height: u64, p: Pass, vts: seq<Coinbase>, clock: nat -> Clock)
    requires ValidConfig(cfg)
    ensures var r := CreditAll(cfg, height, p.nextHeight, p, vts, clock);
            var used := Readings(p.nextHeight, vts, clock);
            r.Some? ==>
              && r.value.shares == InWindowOnly(p.shares, used)
              && p.txs <= r.value.txs
              && EntriesFrom(cfg, p.shares, used, Credited(p.nextHeight, vts), r.value.txs[|p.txs|..])
  {
    hide Pruned, MinersTotals, PendingsAfter, QueueEntry, InWindowOnly, EntryOf, EntriesFrom;
    if vts == [] {
      NoReadings(p.shares);
      assert EntriesFrom(cfg, p.shares, [], [], p.txs[|p.txs|..]) by { NoEntries(cfg, p); }
    } else {
      var n := |vts| - 1;
      PassMeaning(cfg, height, p, vts[..n], clock);
      var q := CreditAll(cfg, height, p.nextHeight, p, vts[..n], clock);
      var used := Readings(p.nextHeight, vts[..n], clock);
      if q.Some? && vts[n].topoheight > p.nextHeight && GoodHash(vts[n].hash) {
        var tx := QueueEntry(cfg, q.value.shares, vts[n], clock(n));
        SplitMeaning(cfg, q.value.shares, vts[n], clock(n));
        EntryAfter(cfg, p.shares, used, clock(n), vts[n], tx);
        OneMoreEntry(cfg, p.shares, used, Credited(p.nextHeight, vts[..n]), q.value.txs[|p.txs|..], clock(n), vts[n], tx);
        assert (q.value.txs + [tx])[|p.txs|..] == q.value.txs[|p.txs|..] + [tx];
        PrunedIsInWindow(q.value.shares, clock(n));
        FilterTwice(p.shares, used, [clock(n)]);
      } else {
        assert used + [] == used;
      }
    }
  }

  lemma NoEntries(cfg: Config, p: Pass)
    ensures EntriesFrom(cfg, p.shares, [], [], p.txs[|p.txs|..])
  {
  }

  /** What every update puts in the queue and leaves of the shares: one entry for each listed coinbase
      above LastHeight, in ascending order, each split over the shares in the window as EntryOf says;
      nothing at all when one of their hashes is bad. */
  lemma QueueFollowsShares(cfg: Config, height: u64, l: Ledger, transfers: seq<Coinbase>, clock: nat -> Clock)
    requires ValidConfig(cfg)
    ensures var last, sorted := l.pending.lastHeight, SortByHeight(transfers);
            var credited, used := Credited(last, sorted), Readings(last, sorted, clock);
            var old_, l' := l.pending.unconfirmedTxs, UpdateLedger(cfg, height, l, transfers, clock);
            && (!AllGood(credited) ==> l' == l)
            && (AllGood(credited) ==>
                  && old_ <= l'.pending.unconfirmedTxs
                  && EntriesFrom(cfg, l.shares, used, credited, l'.pending.unconfirmedTxs[|old_|..])
                  && l'.shares == InWindowOnly(l.shares, used))
  {
    hide CreditAll, Credited, SortByHeight, SetPendings, EntriesFrom, InWindowOnly, AllGood;
    var p, vts := StartPass(l), SortByHeight(transfers);
    CreditAllShape(cfg, height, p, vts, clock);
    PassMeaning(cfg, height, p, vts, clock);
  }

  // ----- what is shown as pending -----

  /** What some entries hold for an address. */
  function HeldFor(txs: seq<UnconfTx>, k: Bytes): nat {
    if txs == [] then 0 else HeldFor(txs[..|txs| - 1], k) + Get(txs[|txs| - 1].bals, k)
  }

  /** What the fee address earned as a miner in the entries of an update. */
  function MinedByFee(cfg: Config, shares: seq<Option<Share>>, used: seq<Clock>, credited: seq<Coinbase>): int
    requires |used| == |credited|
  {
    if used == [] then 0
    else
      var n := |used| - 1;
      var total := TotalDifficulty(shares, used);
      MinedByFee(cfg, shares, used[..n], credited[..n])
        + if total == 0 then 0
          else PartOf(Difficulty(shares, used, cfg.feeAddress), total, cfg.feePercent, credited[n].reward)
  }

  lemma HeldForAppend(txs: seq<UnconfTx>, tx: UnconfTx, k: Bytes)
    ensures HeldFor(txs + [tx], k) == HeldFor(txs, k) + Get(tx.bals, k)
  {
    assert (txs + [tx])[..|txs|] == txs;
  }

  lemma PartOfNone(total: nat, feePercent: real, reward: u64)
    requires total > 0
    ensures PartOf(0, total, feePercent, reward) == 0
  {
    hide AfterFee;
    var r := AfterFee(feePercent, reward);
    assert 0 as real * r == 0.0;
    assert Proportion(0, total, r) == 0.0;
  }

  /** The fee address' own portion of one coinbase. */
  lemma FeePortion(cfg: Config, shares: seq<Option<Share>>, vt: Coinbase, clock: Clock)
    requires ValidConfig(cfg) && LedgerRuns.Positive(shares)
    ensures var totals, total := MinersTotals(shares, clock), TotalDifficulty(shares, [clock]);
            Get(MinerPortions(cfg, RewardAfterFee(cfg, vt.reward), totals, Sum(totals)), cfg.feeAddress)
              == if total == 0 then 0
                 else PartOf(Difficulty(shares, [clock], cfg.feeAddress), total, cfg.feePercent, vt.reward)
  {
    hide MinersTotals, Sum, InWindow, FairPart, PartOf, Miners, Difficulty, TotalDifficulty, MinerPortions, RewardAfterFee;
    var totals, total := MinersTotals(shares, clock), TotalDifficulty(shares, [clock]);
    var portions := MinerPortions(cfg, RewardAfterFee(cfg, vt.reward), totals, Sum(totals));
    TotalsMeaning(shares, clock);
    LedgerRuns.TotalsPositive(shares, clock);
    MinerPortionsKeys(cfg, RewardAfterFee(cfg, vt.reward), totals, Sum(totals));
    FairParts(cfg, vt.reward, totals, cfg.feeAddress);
    if total == 0 {
      SumOfNone<Bytes>();
      assert totals == map[];
      assert cfg.feeAddress !in portions;
    } else if cfg.feeAddress in totals {
      FairPartIs(cfg, vt.reward, totals, total, cfg.feeAddress);
    } else {
      PartOfNone(total, cfg.feePercent, vt.reward);
    }
  }

  /** One coinbase adds its entry to the pending sums; the fee address' own portion counts twice. */
  lemma PendingsStep(cfg: Config, shares: seq<Option<Share>>, pendings: map<Bytes, u64>, vt: Coinbase, clock: Clock, k: Bytes)
    requires GoodHash(vt.hash)
    ensures var totals := MinersTotals(shares, clock);
            var portions := MinerPortions(cfg, RewardAfterFee(cfg, vt.reward), totals, Sum(totals));
            Get(PendingsAfter(cfg, pendings, vt.reward, totals, Sum(totals)), k)
              == Wrap64(Get(pendings, k) + Get(QueueEntry(cfg, shares, vt, clock).bals, k)
                        + if k == cfg.feeAddress then Get(portions, k) else 0)
  {
    hide MinersTotals, Sum, MinerPortions, RewardAfterFee, Wrap64;
    var totals := MinersTotals(shares, clock);
    var portions := MinerPortions(cfg, RewardAfterFee(cfg, vt.reward), totals, Sum(totals));
    WrapSum(Get(pendings, k) + Get(portions, k), Get(QueueEntry(cfg, shares, vt, clock).bals, k));
    WrapInRange(Get(pendings, k));
    assert k !in pendings && k !in portions ==> Get(WithPortions(pendings, portions), k) == 0;
    assert k in pendings || k in portions ==>
             Get(WithPortions(pendings, portions), k) == Wrap64(Get(pendings, k) + Get(portions, k));
    WrapInRange(0);
  }

  ghost function PendingFor(cfg: Config, shares: seq<Option<Share>>, used: seq<Clock>, credited: seq<Coinbase>, more: seq<UnconfTx>, k: Bytes): u64
    requires |used| == |credited|
  {
    (HeldFor(more, k) + if k == cfg.feeAddress then MinedByFee(cfg, shares, used, credited) else 0) % TWO64
  }

  lemma PendingForOneMore(cfg: Config, shares: seq<Option<Share>>, used: seq<Clock>, credited: seq<Coinbase>, more: seq<UnconfTx>,
                          clock: Clock, c: Coinbase, tx: UnconfTx, k: Bytes)
    requires |used| == |credited|
    ensures var total := TotalDifficulty(shares, used + [clock]);
            var own := if total == 0 then 0
                       else PartOf(Difficulty(shares, used + [clock], cfg.feeAddress), total, cfg.feePercent, c.reward);
            PendingFor(cfg, shares, used + [clock], credited + [c], more + [tx], k)
              == Wrap64(PendingFor(cfg, shares, used, credited, more, k) + Get(tx.bals, k) + if k == cfg.feeAddress then own else 0)
  {
    hide Difficulty, TotalDifficulty, PartOf, Wrap64;
    var total := TotalDifficulty(shares, used + [clock]);
    var own := if total == 0 then 0
               else PartOf(Difficulty(shares, used + [clock], cfg.feeAddress), total, cfg.feePercent, c.reward);
    HeldForAppend(more, tx, k);
    assert (used + [clock])[..|used|] == used && (credited + [c])[..|credited|] == credited;
    var before := HeldFor(more, k) + if k == cfg.feeAddress then MinedByFee(cfg, shares, used, credited) else 0;
    var extra := Get(tx.bals, k) + if k == cfg.feeAddress then own else 0;
    WrapSum(before, extra);
    WrapIsRemainder(before);
    WrapIsRemainder(before + extra);
  }

  lemma WrapIsRemainder(x: int)
    ensures Wrap64(x) == x % TWO64
  {
  }

  lemma {:induction false} PendingsMeaning(cfg: Config, height: u64, p: Pass, vts: seq<Coinbase>, clock: nat -> Clock, k: Bytes)
    requires ValidConfig(cfg) && LedgerRuns.Positive(p.shares) && p.pendings == map[]
    ensures var r := CreditAll(cfg, height, p.nextHeight, p, vts, clock);
            var used, credited := Readings(p.nextHeight, vts, clock), Credited(p.nextHeight, vts);
            r.Some? ==>
              && |used| == |credited| && |p.txs| <= |r.value.txs|
              && Get(r.value.pendings, k) == PendingFor(cfg, p.shares, used, credited, r.value.txs[|p.txs|..], k)
  {
    hide Pruned, MinersTotals, PendingsAfter, QueueEntry, InWindowOnly, PendingFor, MinerPortions, RewardAfterFee, Difficulty,
         TotalDifficulty, PartOf, Sum, Wrap64, LedgerRuns.Positive;
    if vts == [] {
      NothingPending(cfg, p, k);
    } else {
      var n := |vts| - 1;
      PendingsMeaning(cfg, height, p, vts[..n], clock, k);
      var r := CreditAll(cfg, height, p.nextHeight, p, vts[..n], clock);
      var used, credited := Readings(p.nextHeight, vts[..n], clock), Credited(p.nextHeight, vts[..n]);
      if r.Some? && vts[n].topoheight > p.nextHeight && GoodHash(vts[n].hash) {
        var q := r.value;
        PassMeaning(cfg, height, p, vts[..n], clock);
        KeptPositive(p.shares, used);
        var tx := QueueEntry(cfg, q.shares, vts[n], clock(n));
        PendingsStep(cfg, q.shares, q.pendings, vts[n], clock(n), k);
        FeePortion(cfg, q.shares, vts[n], clock(n));
        FilterTwice(p.shares, used, [clock(n)]);
        PendingForOneMore(cfg, p.shares, used, credited, q.txs[|p.txs|..], clock(n), vts[n], tx, k);
        assert (q.txs + [tx])[|p.txs|..] == q.txs[|p.txs|..] + [tx];
      } else {
        assert used + [] == used;
      }
    }
  }

  lemma NothingPending(cfg: Config, p: Pass, k: Bytes)
    requires p.pendings == map[]
    ensures Get(p.pendings, k) == PendingFor(cfg, p.shares, [], [], p.txs[|p.txs|..], k)
  {
  }

  lemma KeptPositive(shares: seq<Option<Share>>, clocks: seq<Clock>)
    requires LedgerRuns.Positive(shares)
    ensures LedgerRuns.Positive(InWindowOnly(shares, clocks))
  {
    hide InWindow;
    KeptMembers(shares, clocks);
  }

  /** What every stored address shows as pending after an update: what the new entries hold for it,
      modulo 2^64, and for the fee address its own portions as a miner a second time. Balance and Paid
      stay as they were, and no address is added. */
  lemma PendingShown(cfg: Config, height: u64, l: Ledger, transfers: seq<Coinbase>, clock: nat -> Clock)
    requires ValidConfig(cfg) && LedgerRuns.Positive(l.shares)
    ensures var last, sorted := l.pending.lastHeight, SortByHeight(transfers);
            var credited, used := Credited(last, sorted), Readings(last, sorted, clock);
            var old_, l' := l.pending.unconfirmedTxs, UpdateLedger(cfg, height, l, transfers, clock);
            AllGood(credited) ==>
              && |used| == |credited| && |old_| <= |l'.pending.unconfirmedTxs| && l'.info.Keys == l.info.Keys
              && forall k :: k in l.info ==>
                   l'.info[k] == l.info[k].(balancePending :=
                     PendingFor(cfg, l.shares, used, credited, l'.pending.unconfirmedTxs[|old_|..], k))
  {
    hide CreditAll, Credited, SortByHeight, PendingFor, AllGood, Readings, LedgerRuns.Positive;
    var p, vts := StartPass(l), SortByHeight(transfers);
    CreditAllShape(cfg, height, p, vts, clock);
    forall k | k in l.info
      ensures var r := CreditAll(cfg, height, p.nextHeight, p, vts, clock);
              r.Some? ==>
                && |Readings(p.nextHeight, vts, clock)| == |Credited(p.nextHeight, vts)| && |p.txs| <= |r.value.txs|
                && Get(r.value.pendings, k)
                     == PendingFor(cfg, l.shares, Readings(p.nextHeight, vts, clock), Credited(p.nextHeight, vts), r.value.txs[|p.txs|..], k)
    {
      PendingsMeaning(cfg, height, p, vts, clock, k);
    }
    PendingsMeaning(cfg, height, p, vts, clock, []);
  }
}
