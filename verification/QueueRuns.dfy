/** The height watermark and the order of the queue over any run: no coinbase is queued twice, the
    queue stays sorted so that looking at its head is enough, and where the watermark falls short. */
module QueueRuns {
  import opened GoTypes
  import opened Records
  import opened MapSums
  import opened Pplns
  import opened Rewards
  import opened Maturing
  import opened Withdrawing
  import opened Master
  import opened LedgerRuns

  /** Every coinbase of the listing is at most at the daemon's height, and heights leave room for
      the confirmations. */
  ghost predicate Timely(cfg: Config, s: Step) {
    s.Update? ==>
      && s.height + cfg.minConfs < TWO64
      && forall c :: c in s.listing ==> c.topoheight <= s.height
  }

  ghost predicate TimelyRun(cfg: Config, steps: seq<Step>) {
    forall s :: s in steps ==> Timely(cfg, s)
  }

  /** Unlock heights never fall from the front of the queue to its back. */
  ghost predicate SortedQueue(txs: seq<UnconfTx>) {
    forall i, j :: 0 <= i < j < |txs| ==> txs[i].unlockHeight <= txs[j].unlockHeight
  }

  ghost predicate Watermarked(cfg: Config, w: World) {
    var last := w.ledger.pending.lastHeight;
    && (last > 0 ==> last + cfg.minConfs < TWO64)
    && (forall c :: c in w.credited ==> c.topoheight <= last)
    && (forall tx :: tx in w.ledger.pending.unconfirmedTxs ==> tx.unlockHeight <= last + cfg.minConfs)
    && SortedQueue(w.ledger.pending.unconfirmedTxs)
  }

  /** The queue entries made of some coinbases. */
  ghost predicate EntriesOf(cfg: Config, more: seq<UnconfTx>, credited: seq<Coinbase>) {
    && |more| == |credited|
    && forall i :: 0 <= i < |credited| ==>
         && more[i].unlockHeight == Wrap64(credited[i].topoheight + cfg.minConfs)
         && Some(more[i].txnBlockHash) == credited[i].hash
  }

  /** What one update appends: the listed coinbases above LastHeight, in ascending order. */
  lemma UpdateShape(cfg: Config, w: World, s: Step) returns (credited: seq<Coinbase>, more: seq<UnconfTx>)
    requires s.Update?
    ensures credited == Credited(w.ledger.pending.lastHeight, SortByHeight(s.listing))
    ensures forall c :: c in credited <==> c in s.listing && c.topoheight > w.ledger.pending.lastHeight
    ensures Ascending(credited)
    ensures !AllGood(credited) ==> AfterUpdate(cfg, w, s) == w
    ensures AllGood(credited) ==>
              && EntriesOf(cfg, more, credited)
              && AfterUpdate(cfg, w, s).credited == w.credited + credited
              && AfterUpdate(cfg, w, s).appended == w.appended + more
              && AfterUpdate(cfg, w, s).ledger.pending
                   == PendingBals(if credited == [] then w.ledger.pending.lastHeight else s.height,
                                  w.ledger.pending.unconfirmedTxs + more)
  {
    hide CreditAll, Credited, SortByHeight, SetPendings, SumRewards, Wrap64, Ascending;
    var p, vts := StartPass(w.ledger), SortByHeight(s.listing);
    credited := Credited(p.nextHeight, vts);
    SortSorts(s.listing);
    SortKeepsMembers(s.listing);
    CreditedMembers(p.nextHeight, vts);
    CreditedAscending(p.nextHeight, vts);
    CreditAllShape(cfg, s.height, p, vts, s.clock);
    var r := CreditAll(cfg, s.height, p.nextHeight, p, vts, s.clock);
    more := if r.Some? then r.value.txs[|p.txs|..] else [];
    if r.Some? {
      assert r.value.txs == p.txs + more;
    }
  }

  lemma SortedAppend(txs: seq<UnconfTx>, more: seq<UnconfTx>)
    requires SortedQueue(txs) && SortedQueue(more)
    requires forall x, y :: x in txs && y in more ==> x.unlockHeight <= y.unlockHeight
    ensures SortedQueue(txs + more)
  {
    forall i, j | 0 <= i < j < |txs + more|
      ensures (txs + more)[i].unlockHeight <= (txs + more)[j].unlockHeight
    {
      if i < |txs| <= j {
        assert txs[i] in txs && more[j - |txs|] in more;
      }
    }
  }

  /** LastHeight never goes back, bounds everything ever credited, and the queue stays sorted. */
  lemma UpdateKeepsWatermark(cfg: Config, w: World, s: Step)
    requires s.Update? && Timely(cfg, s) && Watermarked(cfg, w)
    ensures Watermarked(cfg, AfterUpdate(cfg, w, s))
    ensures w.ledger.pending.lastHeight <= AfterUpdate(cfg, w, s).ledger.pending.lastHeight
  {
    hide AfterUpdate, Credited, SortByHeight;
    var credited, more := UpdateShape(cfg, w, s);
    if AllGood(credited) && credited != [] {
      assert credited[0] in credited;
      EntriesInRange(cfg, w, s, credited, more);
      SortedAppend(w.ledger.pending.unconfirmedTxs, more);
    }
  }

  lemma EntriesInRange(cfg: Config, w: World, s: Step, credited: seq<Coinbase>, more: seq<UnconfTx>)
    requires s.Update? && Timely(cfg, s) && EntriesOf(cfg, more, credited) && Ascending(credited)
    requires forall c :: c in credited <==> c in s.listing && c.topoheight > w.ledger.pending.lastHeight
    ensures forall x :: x in more ==>
              w.ledger.pending.lastHeight + cfg.minConfs < x.unlockHeight <= s.height + cfg.minConfs
    ensures SortedQueue(more)
  {
    hide Wrap64;
    forall i | 0 <= i < |credited|
      ensures more[i].unlockHeight == credited[i].topoheight + cfg.minConfs
      ensures w.ledger.pending.lastHeight < credited[i].topoheight <= s.height
    {
      assert credited[i] in credited;
      WrapInRange(credited[i].topoheight + cfg.minConfs);
    }
  }

  lemma TailSorted(txs: seq<UnconfTx>)
    requires SortedQueue(txs) && txs != []
    ensures SortedQueue(txs[1..])
    ensures forall x :: x in txs[1..] ==> x in txs
  {
  }

  /** The other steps leave LastHeight and the log alone. */
  lemma OtherStepsKeepLog(cfg: Config, w: World, s: Step)
    requires ValidConfig(cfg) && !s.Update?
    ensures After(cfg, w, s).ledger.pending.lastHeight == w.ledger.pending.lastHeight
    ensures After(cfg, w, s).credited == w.credited && After(cfg, w, s).appended == w.appended
  {
    hide Maturing.Judge, MatureInfo, Credits, Confiscated, Debt, Sum, WithdrawOnce, SumAmounts, Fees, Cleaned, ApiInfo, Wrap64;
  }

  /** They at most drop the head of the queue. */
  lemma OtherStepsKeepWatermark(cfg: Config, w: World, s: Step)
    requires ValidConfig(cfg) && !s.Update? && Watermarked(cfg, w)
    ensures Watermarked(cfg, After(cfg, w, s))
    ensures After(cfg, w, s).ledger.pending.lastHeight == w.ledger.pending.lastHeight
    ensures After(cfg, w, s).credited == w.credited && After(cfg, w, s).appended == w.appended
  {
    hide Debt, BlockMultiplier, MatureInfo, Credits, Confiscated, Sum, WithdrawOnce, SumAmounts, Fees, Cleaned, ApiInfo, Wrap64;
    if w.ledger.pending.unconfirmedTxs != [] {
      TailSorted(w.ledger.pending.unconfirmedTxs);
    }
  }

  lemma {:induction false} WatermarkHolds(cfg: Config, steps: seq<Step>)
    requires ValidConfig(cfg) && TimelyRun(cfg, steps)
    ensures Watermarked(cfg, Run(cfg, steps))
  {
    hide After, Watermarked, Timely;
    if steps == [] {
      GenesisWatermarked(cfg);
    } else {
      var n := |steps| - 1;
      assert steps[n] in steps;
      WatermarkHolds(cfg, steps[..n]);
      StepKeepsWatermark(cfg, Run(cfg, steps[..n]), steps[n]);
    }
  }

  lemma GenesisWatermarked(cfg: Config)
    ensures Watermarked(cfg, GENESIS)
  {
  }

  lemma StepKeepsWatermark(cfg: Config, w: World, s: Step)
    requires ValidConfig(cfg) && Timely(cfg, s) && Watermarked(cfg, w)
    ensures Watermarked(cfg, After(cfg, w, s))
    ensures w.ledger.pending.lastHeight <= After(cfg, w, s).ledger.pending.lastHeight
  {
    hide AfterUpdate, Watermarked, Timely, NextMinHeight;
    if s.Update? {
      UpdateKeepsWatermark(cfg, w, s);
      SameWatermark(cfg, AfterUpdate(cfg, w, s), After(cfg, w, s));
    } else {
      OtherStepsKeepWatermark(cfg, w, s);
    }
  }

  lemma SameWatermark(cfg: Config, w: World, w': World)
    requires Watermarked(cfg, w) && w' == w.(minHeight := w'.minHeight)
    ensures Watermarked(cfg, w')
  {
  }

  /** In every reachable state, if the head of the queue has not matured, nothing behind it has:
      CheckWithdraw loses nothing by looking at the head alone. */
  lemma HeadDecides(cfg: Config, steps: seq<Step>, height: u64)
    requires ValidConfig(cfg) && TimelyRun(cfg, steps)
    ensures var txs := Run(cfg, steps).ledger.pending.unconfirmedTxs;
            txs != [] && txs[0].unlockHeight >= height ==> forall tx :: tx in txs ==> tx.unlockHeight >= height
  {
    WatermarkHolds(cfg, steps);
  }

  // ----- no coinbase is queued twice -----

  /** The chain gives every block one height, and a listing mentions a block once. */
  ghost predicate OneHeightPerBlock(s: Step, heightOf: Bytes -> u64) {
    s.Update? ==>
      && (forall c :: c in s.listing && c.hash.Some? ==> c.topoheight == heightOf(c.hash.value))
      && (forall i, j :: 0 <= i < j < |s.listing| ==> s.listing[i].hash != s.listing[j].hash)
  }

  ghost predicate DistinctHashes(cs: seq<Coinbase>) {
    forall i, j :: 0 <= i < j < |cs| ==> cs[i].hash != cs[j].hash
  }

  /** Sorting and filtering keep the hashes distinct. */
  lemma CreditedDistinct(last: u64, listing: seq<Coinbase>)
    requires DistinctHashes(listing)
    ensures DistinctHashes(Credited(last, SortByHeight(listing)))
  {
    var sorted := SortByHeight(listing);
    SortSorts(listing);
    PermutationDistinct(listing, sorted);
    FilterDistinct(last, sorted);
  }

  /** A list without repeated hashes has no repeated element. */
  lemma {:induction false} ElementOnce(a: seq<Coinbase>, x: Coinbase)
    requires DistinctHashes(a)
    ensures multiset(a)[x] <= 1
  {
    if a != [] {
      var n := |a| - 1;
      ElementOnce(a[..n], x);
      assert a == a[..n] + [a[n]];
      if a[n] == x {
        assert x !in a[..n];
      }
    }
  }

  /** Two places of a list take two elements of its multiset. */
  lemma TwoPlaces(b: seq<Coinbase>, i: nat, j: nat)
    requires i < j < |b|
    ensures multiset(b)[b[i]] >= 1 && multiset(b)[b[j]] >= 1
    ensures b[i] == b[j] ==> multiset(b)[b[i]] >= 2
  {
    assert b == b[..i] + [b[i]] + b[i + 1..j] + [b[j]] + b[j + 1..];
  }

  lemma PermutationDistinct(a: seq<Coinbase>, b: seq<Coinbase>)
    requires multiset(a) == multiset(b) && DistinctHashes(a)
    ensures DistinctHashes(b)
  {
    forall i, j | 0 <= i < j < |b|
      ensures b[i].hash != b[j].hash
    {
      TwoPlaces(b, i, j);
      ElementOnce(a, b[i]);
      assert b[i] in multiset(a) && b[j] in multiset(a);
      assert b[i] in a && b[j] in a;
    }
  }

  lemma {:induction false} FilterDistinct(last: u64, vts: seq<Coinbase>)
    requires DistinctHashes(vts)
    ensures DistinctHashes(Credited(last, vts))
  {
    if vts != [] {
      var n := |vts| - 1;
      FilterDistinct(last, vts[..n]);
      CreditedMembers(last, vts[..n]);
    }
  }

  /** The log names every block once, at its height, and the queue was fed in the log's order. */
  ghost predicate LoggedOnce(w: World, heightOf: Bytes -> u64) {
    && DistinctHashes(w.credited)
    && (forall c :: c in w.credited ==> c.hash.Some? && c.topoheight == heightOf(c.hash.value))
    && |w.appended| == |w.credited|
    && (forall i :: 0 <= i < |w.appended| ==> Some(w.appended[i].txnBlockHash) == w.credited[i].hash)
  }

  lemma DistinctAppend(a: seq<Coinbase>, b: seq<Coinbase>)
    requires DistinctHashes(a) && DistinctHashes(b)
    requires forall x, y :: x in a && y in b ==> x.hash != y.hash
    ensures DistinctHashes(a + b)
  {
    forall i, j | 0 <= i < j < |a + b|
      ensures (a + b)[i].hash != (a + b)[j].hash
    {
      if i < |a| <= j {
        assert a[i] in a && b[j - |a|] in b;
      }
    }
  }

  lemma UpdateLogsOnce(cfg: Config, w: World, s: Step, heightOf: Bytes -> u64)
    requires s.Update? && Watermarked(cfg, w) && LoggedOnce(w, heightOf) && OneHeightPerBlock(s, heightOf)
    ensures LoggedOnce(AfterUpdate(cfg, w, s), heightOf)
  {
    hide AfterUpdate, Credited, SortByHeight, DistinctHashes, SortedQueue;
    var credited, more := UpdateShape(cfg, w, s);
    assert DistinctHashes(s.listing) by { ListingDistinct(s, heightOf); }
    CreditedDistinct(w.ledger.pending.lastHeight, s.listing);
    if AllGood(credited) {
      DistinctAppend(w.credited, credited);
    }
  }

  lemma ListingDistinct(s: Step, heightOf: Bytes -> u64)
    requires s.Update? && OneHeightPerBlock(s, heightOf)
    ensures DistinctHashes(s.listing)
  {
  }

  lemma {:induction false} RunLogsOnce(cfg: Config, steps: seq<Step>, heightOf: Bytes -> u64)
    requires ValidConfig(cfg) && TimelyRun(cfg, steps)
    requires forall s :: s in steps ==> OneHeightPerBlock(s, heightOf)
    ensures LoggedOnce(Run(cfg, steps), heightOf)
  {
    hide AfterUpdate, Watermarked, Timely, OneHeightPerBlock;
    if steps != [] {
      var n := |steps| - 1;
      var w, s := Run(cfg, steps[..n]), steps[n];
      assert s in steps;
      RunLogsOnce(cfg, steps[..n], heightOf);
      WatermarkHolds(cfg, steps[..n]);
      if s.Update? {
        UpdateLogsOnce(cfg, w, s, heightOf);
      } else {
        OtherStepsKeepWatermark(cfg, w, s);
      }
    }
  }

  /** Over every run in which listings keep to the daemon's height, no block is ever put in the
      queue twice, and every block ever credited is at or below LastHeight. */
  lemma NoCoinbaseTwice(cfg: Config, steps: seq<Step>, heightOf: Bytes -> u64)
    requires ValidConfig(cfg) && TimelyRun(cfg, steps)
    requires forall s :: s in steps ==> OneHeightPerBlock(s, heightOf)
    ensures var w := Run(cfg, steps);
            && (forall i, j :: 0 <= i < j < |w.appended| ==> w.appended[i].txnBlockHash != w.appended[j].txnBlockHash)
            && (forall c :: c in w.credited ==> c.topoheight <= w.ledger.pending.lastHeight)
  {
    RunLogsOnce(cfg, steps, heightOf);
    WatermarkHolds(cfg, steps);
  }

  // ----- where the watermark is the daemon's height -----

  /** Handing the same listing in again as the next update, at whatever height the daemon has then,
      queues nothing new if and only if nothing was credited the first time or no listed coinbase was
      above the daemon's height. */
  lemma RelistingCreditsNothing(cfg: Config, w: World, s: Step, again: Step)
    requires s.Update? && again.Update? && again.listing == s.listing
    requires forall c :: c in s.listing ==> GoodHash(c.hash)
    ensures var once := AfterUpdate(cfg, w, s);
            var nothingNew := forall c :: c in s.listing ==> c.topoheight <= w.ledger.pending.lastHeight;
            var noneAbove := forall c :: c in s.listing ==> c.topoheight <= s.height;
            AfterUpdate(cfg, once, again).appended == once.appended <==> nothingNew || noneAbove
  {
    hide AfterUpdate, SortByHeight, Credited, Ascending;
    var first, more := UpdateShape(cfg, w, s);
    var second, more2 := UpdateShape(cfg, AfterUpdate(cfg, w, s), again);
    assert |more2| == |second|;
    if first != [] { assert first[0] in first; }
    if second != [] { assert second[0] in second; }
  }

  lemma ListedAlone(last: u64, c: Coinbase)
    ensures Credited(last, SortByHeight([c])) == if c.topoheight > last then [c] else []
  {
    assert [c][..0] == [];
    assert SortByHeight([c]) == [c];
  }

  /** A coinbase above the daemon's height is credited again by the next update. */
  lemma CreditedTwice(cfg: Config, clock: nat -> Clock)
    requires ValidConfig(cfg)
    ensures var c := Coinbase(12, 50, Some(seq(32, _ => 7)));
            Run(cfg, [Update(10, [c], clock), Update(11, [c], clock)]).credited == [c, c]
  {
    hide AfterUpdate, SortByHeight, Credited;
    var c := Coinbase(12, 50, Some(seq(32, _ => 7)));
    var s1, s2 := Update(10, [c], clock), Update(11, [c], clock);
    var w1 := After(cfg, GENESIS, s1);
    var credited1, more1 := UpdateShape(cfg, GENESIS, s1);
    ListedAlone(0, c);
    var credited2, more2 := UpdateShape(cfg, w1, s2);
    ListedAlone(10, c);
    assert [s1, s2][..1] == [s1] && [s1][..0] == [];
    assert Run(cfg, []) == GENESIS && Run(cfg, [s1]) == w1;
  }
}
