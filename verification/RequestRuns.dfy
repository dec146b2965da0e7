/** Which coinbases are credited at all, over any run: those the wallet is asked for and lists before
    the watermark has passed them. */
module RequestRuns {
  import opened GoTypes
  import opened Records
  import opened Pplns
  import opened Target
  import opened Rewards
  import opened Master
  import opened LedgerRuns
  import opened QueueRuns

  // ----- the watermark in terms of the run -----

  /** Step k of the run put something in the queue. */
  ghost predicate Crediting(cfg: Config, steps: seq<Step>, k: nat)
    requires ValidConfig(cfg)
  {
    k < |steps| && steps[k].Update? && |Run(cfg, steps[..k]).credited| < |Run(cfg, steps[..k + 1]).credited|
  }

  /** The latest of them. */
  ghost predicate Latest(cfg: Config, steps: seq<Step>, k: nat)
    requires ValidConfig(cfg)
  {
    Crediting(cfg, steps, k) && forall j: nat :: k < j < |steps| ==> !Crediting(cfg, steps, j)
  }

  /** LastHeight is the daemon height of the latest crediting update, 0 before the first. */
  ghost predicate MarkedBy(cfg: Config, steps: seq<Step>, last: u64)
    requires ValidConfig(cfg)
  {
    && (forall k: nat :: Latest(cfg, steps, k) ==> steps[k].height == last)
    && ((forall k: nat :: !Latest(cfg, steps, k)) ==> last == 0 && Run(cfg, steps).credited == [])
  }

  lemma CreditingBefore(cfg: Config, steps: seq<Step>, k: nat)
    requires ValidConfig(cfg) && k < |steps| - 1
    ensures Crediting(cfg, steps[..|steps| - 1], k) <==> Crediting(cfg, steps, k)
  {
    hide Run;
    var init := steps[..|steps| - 1];
    assert init[..k] == steps[..k] && init[..k + 1] == steps[..k + 1];
  }

  /** What an update does to the log and to LastHeight. */
  lemma UpdateMarks(cfg: Config, w: World, s: Step)
    requires ValidConfig(cfg) && s.Update?
    ensures var w', last := After(cfg, w, s), w.ledger.pending.lastHeight;
            && w.credited <= w'.credited
            && w'.ledger.pending.lastHeight == (if |w'.credited| > |w.credited| then s.height else last)
            && (forall c :: c in w'.credited[|w.credited|..] ==> c in s.listing && c.topoheight > last && GoodHash(c.hash))
            && ((forall c :: c in s.listing ==> GoodHash(c.hash)) ==>
                  forall c :: c in s.listing && c.topoheight > last ==> c in w'.credited[|w.credited|..])
  {
    hide AfterUpdate, Credited, SortByHeight, NextMinHeight, Ascending, GoodHash;
    var credited, more := UpdateShape(cfg, w, s);
    if AllGood(credited) {
      assert (w.credited + credited)[|w.credited|..] == credited;
    }
  }

  /** LastHeight falls exactly when an update credits something while the daemon is below it. */
  lemma WatermarkFallsExactly(cfg: Config, w: World, s: Step)
    requires ValidConfig(cfg)
    ensures var w', last := After(cfg, w, s), w.ledger.pending.lastHeight;
            (w'.ledger.pending.lastHeight < last
             <==> s.Update? && |w'.credited| > |w.credited| && s.height < last)
  {
    hide After;
    if s.Update? { UpdateMarks(cfg, w, s); } else { OtherStepsKeepLog(cfg, w, s); }
  }

  /** In every state of every run. */
  lemma {:induction false} WatermarkIsMarked(cfg: Config, steps: seq<Step>)
    requires ValidConfig(cfg)
    ensures MarkedBy(cfg, steps, Run(cfg, steps).ledger.pending.lastHeight)
  {
    hide After, Crediting;
    CreditingInside(cfg, steps);
    if steps != [] {
      var n := |steps| - 1;
      var init, s := steps[..n], steps[n];
      var w := Run(cfg, init);
      WatermarkIsMarked(cfg, init);
      forall k: nat | k < n
        ensures Crediting(cfg, init, k) <==> Crediting(cfg, steps, k)
      {
        CreditingBefore(cfg, steps, k);
      }
      LastIsCrediting(cfg, steps);
      CreditingInside(cfg, init);
      if s.Update? { UpdateMarks(cfg, w, s); } else { OtherStepsKeepLog(cfg, w, s); }
      if Crediting(cfg, steps, n) {
        assert Latest(cfg, steps, n);
      } else {
        assert forall k: nat :: Latest(cfg, steps, k) <==> Latest(cfg, init, k);
      }
    }
  }

  lemma LastIsCrediting(cfg: Config, steps: seq<Step>)
    requires ValidConfig(cfg) && steps != []
    ensures var n := |steps| - 1;
            (Crediting(cfg, steps, n)
             <==> steps[n].Update? && |Run(cfg, steps[..n]).credited| < |Run(cfg, steps).credited|)
  {
    hide After;
    assert steps[..|steps| - 1 + 1] == steps;
  }

  lemma CreditingInside(cfg: Config, steps: seq<Step>)
    requires ValidConfig(cfg)
    ensures forall k: nat :: Crediting(cfg, steps, k) ==> k < |steps| && steps[k].Update?
  {
    hide Run;
  }

  // ----- which coinbases are credited -----

  /** The wallet's answer: the coinbases it has from the requested height on. */
  ghost predicate Lists(listing: seq<Coinbase>, wallet: set<Coinbase>, requested: u64) {
    forall c :: c in listing <==> c in wallet && AskedFor(c.topoheight, requested)
  }

  /** The wallet lists coinbases from the requested height on. */
  predicate AskedFor(h: u64, requested: u64) {
    h >= requested
  }

  /** On every run, an update credits a coinbase the wallet has if and only if the coinbase is asked
      for and the latest crediting update saw the daemon below the coinbase's height. */
  lemma CreditedExactly(cfg: Config, steps: seq<Step>, s: Step, wallet: set<Coinbase>, c: Coinbase)
    requires ValidConfig(cfg) && s.Update? && c in wallet
    requires Lists(s.listing, wallet, FirstRequest(Run(cfg, steps).minHeight, s.height))
    requires forall x :: x in s.listing ==> GoodHash(x.hash)
    ensures var w, w' := Run(cfg, steps), Run(cfg, steps + [s]);
            && w.credited <= w'.credited
            && (c in w'.credited[|w.credited|..]
                <==> && AskedFor(c.topoheight, FirstRequest(w.minHeight, s.height))
                     && c.topoheight > 0
                     && forall k: nat :: Latest(cfg, steps, k) ==> steps[k].height < c.topoheight)
  {
    hide After, Latest, GoodHash, FirstRequest, Run;
    RunOneMore(cfg, steps, s);
    UpdateMarks(cfg, Run(cfg, steps), s);
    WatermarkIsMarked(cfg, steps);
    LatestInside(cfg, steps);
  }

  lemma LatestInside(cfg: Config, steps: seq<Step>)
    requires ValidConfig(cfg)
    ensures forall k: nat :: Latest(cfg, steps, k) ==> k < |steps| && steps[k].Update?
  {
    hide Run;
  }

  /** So a coinbase that was credited before is credited again if and only if it is asked for and the
      latest crediting update saw the daemon below the coinbase's height. */
  lemma CreditedAgainExactly(cfg: Config, steps: seq<Step>, s: Step, wallet: set<Coinbase>, c: Coinbase)
    requires ValidConfig(cfg) && s.Update? && c in wallet
    requires Lists(s.listing, wallet, FirstRequest(Run(cfg, steps).minHeight, s.height))
    requires forall x :: x in s.listing ==> GoodHash(x.hash)
    requires c in Run(cfg, steps).credited
    ensures var w, w' := Run(cfg, steps), Run(cfg, steps + [s]);
            && w.credited <= w'.credited
            && (c in w'.credited[|w.credited|..]
                <==> && AskedFor(c.topoheight, FirstRequest(w.minHeight, s.height))
                     && exists k: nat :: Latest(cfg, steps, k) && steps[k].height < c.topoheight)
  {
    hide After, Latest, GoodHash, FirstRequest, Run;
    CreditedExactly(cfg, steps, s, wallet, c);
    WatermarkIsMarked(cfg, steps);
    LatestInside(cfg, steps);
  }

  /** Step s credits c. */
  ghost predicate Credits(cfg: Config, w: World, s: Step, c: Coinbase)
    requires ValidConfig(cfg)
  {
    s.Update? && |w.credited| <= |After(cfg, w, s).credited| && c in After(cfg, w, s).credited[|w.credited|..]
  }

  /** In every state of every run, some next update could credit something a second time if and only
      if something credited is above the watermark. */
  lemma RepeatsExactly(cfg: Config, steps: seq<Step>)
    requires ValidConfig(cfg)
    ensures var w := Run(cfg, steps);
            ((exists c, s :: c in w.credited && Credits(cfg, w, s, c))
             <==> exists c :: c in w.credited && c.topoheight > w.ledger.pending.lastHeight)
  {
    hide Run, After, GoodHash;
    var w := Run(cfg, steps);
    if c, s :| c in w.credited && Credits(cfg, w, s, c) {
      UpdateMarks(cfg, w, s);
    }
    if c :| c in w.credited && c.topoheight > w.ledger.pending.lastHeight {
      CreditedIsGood(cfg, steps, c);
      var s := Update(0, [c], _ => Clock(0, 0));
      UpdateMarks(cfg, w, s);
      assert Credits(cfg, w, s, c);
    }
  }

  lemma {:induction false} CreditedIsGood(cfg: Config, steps: seq<Step>, c: Coinbase)
    requires ValidConfig(cfg) && c in Run(cfg, steps).credited
    ensures GoodHash(c.hash)
  {
    hide After, GoodHash;
    if steps != [] {
      var n := |steps| - 1;
      var w, s := Run(cfg, steps[..n]), steps[n];
      if s.Update? { UpdateMarks(cfg, w, s); } else { OtherStepsKeepLog(cfg, w, s); }
      var w' := After(cfg, w, s);
      assert w'.credited == w.credited + w'.credited[|w.credited|..];
      if c in w.credited { CreditedIsGood(cfg, steps[..n], c); }
    }
  }

  lemma RunOneMore(cfg: Config, steps: seq<Step>, s: Step)
    requires ValidConfig(cfg)
    ensures Run(cfg, steps + [s]) == After(cfg, Run(cfg, steps), s)
  {
    hide After;
    assert (steps + [s])[..|steps|] == steps;
  }

  /** From step `from` on, an update credited something while the daemon was below c. */
  ghost predicate Lowered(cfg: Config, steps: seq<Step>, from: nat, c: Coinbase)
    requires ValidConfig(cfg)
  {
    exists k: nat :: from <= k && Crediting(cfg, steps, k) && Below(steps, k, c)
  }

  predicate Below(steps: seq<Step>, k: nat, c: Coinbase) {
    k < |steps| && steps[k].Update? && steps[k].height < c.topoheight
  }

  /** A coinbase that the watermark has passed uncredited stays uncredited and passed, until an update
      credits something else while the daemon is below the coinbase. */
  lemma {:induction false} LateIsLost(cfg: Config, steps: seq<Step>, later: seq<Step>, c: Coinbase)
    requires ValidConfig(cfg)
    requires c !in Run(cfg, steps).credited && c.topoheight <= Run(cfg, steps).ledger.pending.lastHeight
    ensures var w := Run(cfg, steps + later);
            || Lowered(cfg, steps + later, |steps|, c)
            || (c !in w.credited && c.topoheight <= w.ledger.pending.lastHeight)
    decreases |later|
  {
    hide After, Crediting;
    if later == [] {
      assert steps + later == steps;
    } else {
      var n := |later| - 1;
      var all, init, s := steps + later, steps + later[..n], later[n];
      assert init + [s] == all && all[..|all| - 1] == init;
      LateIsLost(cfg, steps, later[..n], c);
      if Lowered(cfg, init, |steps|, c) {
        var k: nat :| |steps| <= k && Crediting(cfg, init, k) && Below(init, k, c);
        CreditingBefore(cfg, all, k);
        assert Below(all, k, c);
      } else {
        RunOneMore(cfg, init, s);
        LastIsCrediting(cfg, all);
        NothingOld(cfg, Run(cfg, init), s, c);
        assert s.Update? && s.height < c.topoheight ==> Below(all, |all| - 1, c);
      }
    }
  }

  lemma NothingOld(cfg: Config, w: World, s: Step, c: Coinbase)
    requires ValidConfig(cfg) && c !in w.credited && c.topoheight <= w.ledger.pending.lastHeight
    ensures var w' := After(cfg, w, s);
            && c !in w'.credited
            && (c.topoheight <= w'.ledger.pending.lastHeight
                || (s.Update? && |w.credited| < |w'.credited| && s.height < c.topoheight))
  {
    hide After, GoodHash;
    if s.Update? { UpdateMarks(cfg, w, s); } else { OtherStepsKeepLog(cfg, w, s); }
    var w' := After(cfg, w, s);
    assert w'.credited == w.credited + w'.credited[|w.credited|..];
  }

  // ----- runs whose listings keep to the daemon's height -----

  /** There the watermark is the greatest daemon height of a crediting update. */
  lemma {:induction false} TimelyWatermark(cfg: Config, steps: seq<Step>, k: nat)
    requires ValidConfig(cfg) && TimelyRun(cfg, steps) && Crediting(cfg, steps, k)
    ensures steps[k].height <= Run(cfg, steps).ledger.pending.lastHeight
  {
    hide After, Watermarked, Timely, Crediting;
    CreditingInside(cfg, steps);
    var n := |steps| - 1;
    var init, s := steps[..n], steps[n];
    assert s in steps;
    WatermarkHolds(cfg, init);
    StepKeepsWatermark(cfg, Run(cfg, init), s);
    if k < n {
      CreditingBefore(cfg, steps, k);
      TimelyWatermark(cfg, init, k);
    } else {
      LastIsCrediting(cfg, steps);
      UpdateMarks(cfg, Run(cfg, init), s);
    }
  }

  /** There a coinbase the watermark has passed uncredited is never credited. */
  lemma TimelyLateIsLost(cfg: Config, steps: seq<Step>, later: seq<Step>, c: Coinbase)
    requires ValidConfig(cfg) && TimelyRun(cfg, steps + later)
    requires c !in Run(cfg, steps).credited && c.topoheight <= Run(cfg, steps).ledger.pending.lastHeight
    ensures c !in Run(cfg, steps + later).credited
  {
    hide Run, Timely, Crediting;
    LateIsLost(cfg, steps, later, c);
    if Lowered(cfg, steps + later, |steps|, c) {
      var k: nat :| |steps| <= k && Crediting(cfg, steps + later, k) && Below(steps + later, k, c);
      TimelyNeverLower(cfg, steps, later, k);
    }
  }

  lemma {:induction false} TimelyNeverLower(cfg: Config, steps: seq<Step>, later: seq<Step>, k: nat)
    requires ValidConfig(cfg) && TimelyRun(cfg, steps + later)
    requires |steps| <= k && Crediting(cfg, steps + later, k)
    ensures (steps + later)[k].height >= Run(cfg, steps).ledger.pending.lastHeight
    decreases |later|
  {
    hide After, Watermarked, Timely, Crediting;
    var all := steps + later;
    CreditingInside(cfg, all);
    var n := |later| - 1;
    var init, s := steps + later[..n], later[n];
    assert init + [s] == all && all[..|all| - 1] == init;
    assert s in all && forall x :: x in init ==> x in all;
    if k < |all| - 1 {
      CreditingBefore(cfg, all, k);
      TimelyNeverLower(cfg, steps, later[..n], k);
    } else {
      TimelyGrows(cfg, steps, later);
      WatermarkIsMarked(cfg, all);
      assert Latest(cfg, all, k);
    }
  }

  lemma {:induction false} TimelyGrows(cfg: Config, steps: seq<Step>, later: seq<Step>)
    requires ValidConfig(cfg) && TimelyRun(cfg, steps + later)
    ensures Run(cfg, steps).ledger.pending.lastHeight <= Run(cfg, steps + later).ledger.pending.lastHeight
    decreases |later|
  {
    hide After, Watermarked, Timely;
    if later == [] {
      assert steps + later == steps;
    } else {
      var n := |later| - 1;
      var init, s := steps + later[..n], later[n];
      assert init + [s] == steps + later;
      assert s in steps + later && forall x :: x in init ==> x in steps + later;
      TimelyGrows(cfg, steps, later[..n]);
      RunOneMore(cfg, init, s);
      WatermarkHolds(cfg, init);
      StepKeepsWatermark(cfg, Run(cfg, init), s);
    }
  }

  // ----- witnesses -----

  /** The wallet lists the coinbase of height 10 one update late: it is not credited, although it is
      asked for, listed, and was never above the daemon's height. */
  lemma CreditedNever(cfg: Config, clock: nat -> Clock)
    requires ValidConfig(cfg)
    ensures var early, late := Coinbase(8, 50, Some(Zeros(32))), Coinbase(10, 50, Some(Zeros(31) + [1]));
            Run(cfg, [Update(10, [early], clock), Update(11, [early, late], clock)]).credited == [early]
  {
    hide After;
    var early, late := Coinbase(8, 50, Some(Zeros(32))), Coinbase(10, 50, Some(Zeros(31) + [1]));
    var s1, s2 := Update(10, [early], clock), Update(11, [early, late], clock);
    var w0 := Run(cfg, []);
    RunOneMore(cfg, [], s1);
    RunOneMore(cfg, [s1], s2);
    assert [] + [s1] == [s1] && [s1] + [s2] == [s1, s2];
    ListedAndCredited(cfg, w0, s1, early);
    NoneOfThese(cfg, After(cfg, w0, s1), s2);
  }

  lemma ListedAndCredited(cfg: Config, w: World, s: Step, c: Coinbase)
    requires ValidConfig(cfg) && s.Update? && s.listing == [c] && GoodHash(c.hash)
    requires w.ledger.pending.lastHeight < c.topoheight
    ensures var w' := After(cfg, w, s);
            w'.credited == w.credited + [c] && w'.ledger.pending.lastHeight == s.height
  {
    hide AfterUpdate, Credited, SortByHeight, NextMinHeight;
    var credited, more := UpdateShape(cfg, w, s);
    ListedAlone(w.ledger.pending.lastHeight, c);
  }

  lemma NoneOfThese(cfg: Config, w: World, s: Step)
    requires ValidConfig(cfg) && s.Update? && forall c :: c in s.listing ==> c.topoheight <= w.ledger.pending.lastHeight
    ensures After(cfg, w, s).credited == w.credited
  {
    hide AfterUpdate, Credited, SortByHeight, NextMinHeight;
    var credited, more := UpdateShape(cfg, w, s);
    HasMember(credited);
  }

  lemma HasMember(cs: seq<Coinbase>)
    ensures cs == [] || exists c :: c in cs
  {
    if cs != [] { assert cs[0] in cs; }
  }

  /** A coinbase above the daemon's height makes the watermark fall: the third update credits the
      first coinbase again, although its own listing was never above the daemon's height, or one that
      the watermark had already passed. */
  lemma WatermarkFalls(cfg: Config, clock: nat -> Clock, old_: Coinbase)
    requires ValidConfig(cfg) && GoodHash(old_.hash) && 10 < old_.topoheight <= 20
    ensures var first, above := Coinbase(15, 50, Some(Zeros(32))), Coinbase(25, 50, Some(Zeros(31) + [1]));
            var two := [Update(20, [first], clock), Update(10, [above], clock)];
            && Run(cfg, two[..1]).ledger.pending.lastHeight == 20
            && Run(cfg, two).ledger.pending.lastHeight == 10
            && Run(cfg, two + [Update(30, [old_], clock)]).credited == [first, above, old_]
  {
    hide After, Run;
    var first, above := Coinbase(15, 50, Some(Zeros(32))), Coinbase(25, 50, Some(Zeros(31) + [1]));
    var s1, s2, s3 := Update(20, [first], clock), Update(10, [above], clock), Update(30, [old_], clock);
    var w0 := Run(cfg, []);
    NothingYet(cfg);
    RunOneMore(cfg, [], s1);
    RunOneMore(cfg, [s1], s2);
    RunOneMore(cfg, [s1, s2], s3);
    assert [] + [s1] == [s1] && [s1] + [s2] == [s1, s2] && [s1, s2][..1] == [s1];
    ListedAndCredited(cfg, w0, s1, first);
    ListedAndCredited(cfg, Run(cfg, [s1]), s2, above);
    ListedAndCredited(cfg, Run(cfg, [s1, s2]), s3, old_);
  }

  lemma NothingYet(cfg: Config)
    requires ValidConfig(cfg)
    ensures Run(cfg, []).credited == [] && Run(cfg, []).ledger.pending.lastHeight == 0
  {
  }

  // ----- which coinbases are asked for -----

  /** Everything above the watermark is asked for. */
  ghost predicate CoversAll(requested: u64, last: u64) {
    forall h: u64 :: h > last ==> AskedFor(h, requested)
  }

  lemma CoversWhen(requested: u64, last: u64)
    ensures CoversAll(requested, last) <==> requested <= last + 1
  {
    if requested > last + 1 {
      assert !AskedFor(last + 1, requested);
    }
  }

  /** A fresh process (minHeight 0) asks for every coinbase above the stored LastHeight if and
      only if the daemon is at most 6 above it, or at most at 5. */
  lemma FirstRequestCovers(height: u64, lastHeight: u64)
    ensures CoversAll(FirstRequest(0, height), lastHeight)
       <==> height <= 5 || height <= lastHeight + 6
  {
    CoversWhen(FirstRequest(0, height), lastHeight);
  }

  /** On every run: after an update, the next request asks for every coinbase above the watermark if
      and only if, when the watermark was above 5 before that update, it has not fallen by more than 6, and otherwise the update's own request reached down to where the
      watermark is now. */
  lemma LaterRequestsCover(cfg: Config, steps: seq<Step>, s: Step, height: u64)
    requires ValidConfig(cfg) && s.Update?
    ensures var w, w' := Run(cfg, steps), Run(cfg, steps + [s]);
            var asked := FirstRequest(w.minHeight, s.height);
            var before, last := w.ledger.pending.lastHeight, w'.ledger.pending.lastHeight;
            (CoversAll(FirstRequest(w'.minHeight, height), last)
             <==> (if before > 5 then before <= last + 6
                   else if asked == 0 then height <= 5 || height <= last + 6
                   else asked <= last + 1))
  {
    hide Booked, CoversAll, Run;
    RunOneMore(cfg, steps, s);
    CoversWhen(FirstRequest(Run(cfg, steps + [s]).minHeight, height), Run(cfg, steps + [s]).ledger.pending.lastHeight);
  }

  /** Once the watermark is above SAFETY_MARGIN and does not fall by more than SAFETY_MARGIN + 1, two
      updates of one process in a row leave nothing out: the second credits every coinbase of the
      wallet that is above the watermark. */
  lemma NextUpdateCredits(cfg: Config, steps: seq<Step>, first: Step, second: Step, wallet: set<Coinbase>, c: Coinbase)
    requires ValidConfig(cfg) && first.Update? && second.Update?
    requires SAFETY_MARGIN < Run(cfg, steps).ledger.pending.lastHeight
                          <= Run(cfg, steps + [first]).ledger.pending.lastHeight + SAFETY_MARGIN + 1
    requires Lists(second.listing, wallet, FirstRequest(Run(cfg, steps + [first]).minHeight, second.height))
    requires forall x :: x in second.listing ==> GoodHash(x.hash)
    requires c in wallet && c.topoheight > Run(cfg, steps + [first]).ledger.pending.lastHeight
    ensures Credits(cfg, Run(cfg, steps + [first]), second, c)
  {
    hide Run, After, FirstRequest, GoodHash;
    LaterRequestsCover(cfg, steps, first, second.height);
    UpdateMarks(cfg, Run(cfg, steps + [first]), second);
  }
}
