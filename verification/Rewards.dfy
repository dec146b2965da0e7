/** Turning the wallet's coinbase list into the queue of unconfirmed payouts
    (UpdatePendingBals in cmd/master/updater.go), as a function on the stored data. */
module Rewards {
  import opened GoTypes
  import opened Records
  import opened MapSums
  import opened Pplns

  const SAFETY_MARGIN: u64 := 5

  /** What the database holds; an absent "pending" record reads as the empty one. */
  datatype Ledger = Ledger(pending: PendingBals, info: map<Bytes, AddrInfo>, shares: seq<Option<Share>>)

  const EMPTY_LEDGER := Ledger(PendingBals(0, []), map[], [])

  /** A coinbase transaction as the wallet lists it; hash is None when it is not hexadecimal. */
  datatype Coinbase = Coinbase(topoheight: u64, reward: u64, hash: Option<Bytes>)

  predicate GoodHash(hash: Option<Bytes>) {
    hash.Some? && |hash.value| == 32
  }

  // ----- sort.SliceStable by ascending height -----

  function Insert(s: seq<Coinbase>, x: Coinbase): seq<Coinbase> {
    if s == [] || s[|s| - 1].topoheight <= x.topoheight then s + [x]
    else Insert(s[..|s| - 1], x) + [s[|s| - 1]]
  }

  function SortByHeight(ts: seq<Coinbase>): seq<Coinbase> {
    if ts == [] then [] else Insert(SortByHeight(ts[..|ts| - 1]), ts[|ts| - 1])
  }

  ghost predicate Ascending(ts: seq<Coinbase>) {
    forall i, j :: 0 <= i < j < |ts| ==> ts[i].topoheight <= ts[j].topoheight
  }

  // ----- the loop over the transfers -----

  /** The transaction's working copy: shares, queue, pending balances, next LastHeight. */
  datatype Pass = Pass(shares: seq<Option<Share>>, txs: seq<UnconfTx>, pendings: map<Bytes, u64>, nextHeight: u64)

  ghost function QueueEntry(cfg: Config, shares: seq<Option<Share>>, vt: Coinbase, clock: Clock): UnconfTx
    requires GoodHash(vt.hash)
  {
    var totals := MinersTotals(shares, clock);
    UnconfTx(Wrap64(vt.topoheight + cfg.minConfs), vt.hash.value, Split(cfg, vt.reward, totals, Sum(totals)))
  }

  ghost function CreditOne(cfg: Config, height: u64, p: Pass, vt: Coinbase, clock: Clock): Option<Pass> {
    if !GoodHash(vt.hash) then None
    else
      var totals := MinersTotals(p.shares, clock);
      Some(Pass(
        Pruned(p.shares, clock),
        p.txs + [QueueEntry(cfg, p.shares, vt, clock)],
        PendingsAfter(cfg, p.pendings, vt.reward, totals, Sum(totals)),
        if vt.topoheight > p.nextHeight then height else p.nextHeight))
  }

  /** None is the error return, which rolls the transaction back. clock(i) is what the clock and
      the window read while the i-th transfer is handled. */
  ghost function CreditAll(cfg: Config, height: u64, last: u64, p: Pass, vts: seq<Coinbase>, clock: nat -> Clock): Option<Pass> {
    if vts == [] then Some(p)
    else
      var n := |vts| - 1;
      match CreditAll(cfg, height, last, p, vts[..n], clock)
      case None => None
      case Some(q) => if vts[n].topoheight > last then CreditOne(cfg, height, q, vts[n], clock(n)) else Some(q)
  }

  function SetPendings(info: map<Bytes, AddrInfo>, pendings: map<Bytes, u64>): map<Bytes, AddrInfo> {
    map k | k in info :: info[k].(balancePending := Get(pendings, k))
  }

  function StartPass(l: Ledger): Pass {
    Pass(l.shares, l.pending.unconfirmedTxs, map[], l.pending.lastHeight)
  }

  ghost function UpdateLedger(cfg: Config, height: u64, l: Ledger, transfers: seq<Coinbase>, clock: nat -> Clock): Ledger {
    match CreditAll(cfg, height, l.pending.lastHeight, StartPass(l), SortByHeight(transfers), clock)
    case None => l
    case Some(p) => Ledger(PendingBals(p.nextHeight, p.txs), SetPendings(l.info, p.pendings), p.shares)
  }

  // ----- sorting -----

  lemma {:induction false} InsertKeepsAll(s: seq<Coinbase>, x: Coinbase)
    ensures multiset(Insert(s, x)) == multiset(s) + multiset{x}
  {
    if s != [] && s[|s| - 1].topoheight > x.topoheight {
      var n := |s| - 1;
      InsertKeepsAll(s[..n], x);
      assert s == s[..n] + [s[n]];
    }
  }

  lemma {:induction false} InsertMembers(s: seq<Coinbase>, x: Coinbase, y: Coinbase)
    requires y in Insert(s, x)
    ensures y in s || y == x
  {
    if s != [] && s[|s| - 1].topoheight > x.topoheight && y != s[|s| - 1] {
      InsertMembers(s[..|s| - 1], x, y);
    }
  }

  lemma AscendingAppend(t: seq<Coinbase>, x: Coinbase)
    requires Ascending(t) && forall y :: y in t ==> y.topoheight <= x.topoheight
    ensures Ascending(t + [x])
  {
  }

  lemma AscendingInit(s: seq<Coinbase>)
    requires Ascending(s) && s != []
    ensures Ascending(s[..|s| - 1])
    ensures forall y :: y in s ==> y.topoheight <= s[|s| - 1].topoheight
  {
  }

  lemma {:induction false} InsertKeepsOrder(s: seq<Coinbase>, x: Coinbase)
    requires Ascending(s)
    ensures Ascending(Insert(s, x))
  {
    hide Ascending;
    if s == [] {
      AscendingNone();
      AscendingAppend(s, x);
    } else {
      AscendingInit(s);
      var n := |s| - 1;
      if s[n].topoheight <= x.topoheight {
        AscendingAppend(s, x);
      } else {
        var t := Insert(s[..n], x);
        InsertKeepsOrder(s[..n], x);
        forall y | y in t
          ensures y.topoheight <= s[n].topoheight
        {
          InsertMembers(s[..n], x, y);
        }
        AscendingAppend(t, s[n]);
      }
    }
  }

  /** The coinbases of one height, in their order. */
  function AtHeight(ts: seq<Coinbase>, h: u64): seq<Coinbase> {
    if ts == [] then []
    else
      var n := |ts| - 1;
      AtHeight(ts[..n], h) + if ts[n].topoheight == h then [ts[n]] else []
  }

  lemma AtHeightAppend(s: seq<Coinbase>, x: Coinbase, h: u64)
    ensures AtHeight(s + [x], h) == AtHeight(s, h) + if x.topoheight == h then [x] else []
  {
    assert (s + [x])[..|s|] == s;
  }

  /** A new element comes after those of its own height. */
  lemma {:induction false} InsertIsStable(s: seq<Coinbase>, x: Coinbase, h: u64)
    ensures AtHeight(Insert(s, x), h) == AtHeight(s, h) + if x.topoheight == h then [x] else []
  {
    if s == [] || s[|s| - 1].topoheight <= x.topoheight {
      AtHeightAppend(s, x, h);
    } else {
      var n := |s| - 1;
      InsertIsStable(s[..n], x, h);
      AtHeightAppend(Insert(s[..n], x), s[n], h);
    }
  }

  /** The result is in ascending order of height, lists the same coinbases, and keeps the order of
      those with the same height. */
  lemma {:induction false} SortSorts(ts: seq<Coinbase>)
    ensures Ascending(SortByHeight(ts))
    ensures multiset(SortByHeight(ts)) == multiset(ts)
    ensures forall h :: AtHeight(SortByHeight(ts), h) == AtHeight(ts, h)
  {
    hide Insert, Ascending;
    forall h
      ensures AtHeight(SortByHeight(ts), h) == AtHeight(ts, h)
    {
      SortIsStable(ts, h);
    }
    if ts == [] {
      assert Ascending(SortByHeight(ts)) by { AscendingNone(); }
    } else {
      var n := |ts| - 1;
      SortSorts(ts[..n]);
      InsertKeepsOrder(SortByHeight(ts[..n]), ts[n]);
      InsertKeepsAll(SortByHeight(ts[..n]), ts[n]);
      assert ts == ts[..n] + [ts[n]];
    }
  }

  lemma {:induction false} SortIsStable(ts: seq<Coinbase>, h: u64)
    ensures AtHeight(SortByHeight(ts), h) == AtHeight(ts, h)
  {
    hide Insert;
    if ts != [] {
      var n := |ts| - 1;
      SortIsStable(ts[..n], h);
      InsertIsStable(SortByHeight(ts[..n]), ts[n], h);
    }
  }

  lemma AscendingNone()
    ensures Ascending([])
  {
  }

  lemma SortKeepsMembers(ts: seq<Coinbase>)
    ensures forall c :: c in SortByHeight(ts) <==> c in ts
  {
    SortSorts(ts);
    forall c
      ensures c in SortByHeight(ts) <==> c in ts
    {
      assert c in SortByHeight(ts) <==> c in multiset(SortByHeight(ts));
      assert c in ts <==> c in multiset(ts);
    }
  }

  // ----- which coinbases are credited, and what LastHeight becomes -----

  /** The coinbases above the watermark. */
  function Credited(last: u64, vts: seq<Coinbase>): seq<Coinbase> {
    if vts == [] then []
    else
      var n := |vts| - 1;
      if vts[n].topoheight > last then Credited(last, vts[..n]) + [vts[n]] else Credited(last, vts[..n])
  }

  ghost predicate AllGood(cs: seq<Coinbase>) {
    forall c :: c in cs ==> GoodHash(c.hash)
  }

  lemma {:induction false} CreditedMembers(last: u64, vts: seq<Coinbase>)
    ensures forall c :: c in Credited(last, vts) <==> c in vts && c.topoheight > last
  {
    if vts != [] {
      var n := |vts| - 1;
      CreditedMembers(last, vts[..n]);
      assert vts == vts[..n] + [vts[n]];
    }
  }

  lemma {:induction false} CreditedAscending(last: u64, vts: seq<Coinbase>)
    requires Ascending(vts)
    ensures Ascending(Credited(last, vts))
  {
    if vts != [] {
      var n := |vts| - 1;
      CreditedAscending(last, vts[..n]);
      CreditedMembers(last, vts[..n]);
    }
  }

  /** The loop succeeds unless a credited coinbase has a bad hash; then it has appended one entry
      for each credited coinbase, in order, maturing minConfs above it, and the watermark is the
      daemon's height if anything was credited. */
  ghost predicate PassedOver(cfg: Config, height: u64, p: Pass, credited: seq<Coinbase>, q: Pass) {
    && |q.txs| == |p.txs| + |credited|
    && q.txs[..|p.txs|] == p.txs
    && (forall i :: 0 <= i < |credited| ==>
          && q.txs[|p.txs| + i].unlockHeight == Wrap64(credited[i].topoheight + cfg.minConfs)
          && Some(q.txs[|p.txs| + i].txnBlockHash) == credited[i].hash)
    && q.nextHeight == (if credited == [] then p.nextHeight else height)
  }

  lemma {:induction false} CreditAllShape(cfg: Config, height: u64, p: Pass, vts: seq<Coinbase>, clock: nat -> Clock)
    ensures var r := CreditAll(cfg, height, p.nextHeight, p, vts, clock);
            var credited := Credited(p.nextHeight, vts);
            && (r.Some? <==> AllGood(credited))
            && (r.Some? ==> PassedOver(cfg, height, p, credited, r.value))
  {
    hide Pruned, MinersTotals, PendingsAfter, Split, Wrap64;
    if vts != [] {
      var n := |vts| - 1;
      CreditAllShape(cfg, height, p, vts[..n], clock);
      var r := CreditAll(cfg, height, p.nextHeight, p, vts[..n], clock);
      var credited := Credited(p.nextHeight, vts[..n]);
      if vts[n].topoheight > p.nextHeight {
        assert AllGood(credited + [vts[n]]) <==> AllGood(credited) && GoodHash(vts[n].hash);
      }
    }
  }
}
