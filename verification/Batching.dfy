/** Shares on their way from the miners' connections to the master's database: summed per wallet
    in each slave's cache (slave/queue.go), flushed as one packet a wallet, decoded and recorded
    by the master (cmd/master/handler.go, cmd/master/master.go). */
module Batching {
  import opened GoTypes
  import opened Records
  import opened MapSums
  import opened Pplns
  import opened Master
  import Frames
  import LedgerRuns

  datatype ShareCache = ShareCache(numShares: u32, totalDiff: u64)
  type Cache = map<Bytes, ShareCache>

  function CacheEntry(cache: Cache, wallet: Bytes): ShareCache {
    if wallet in cache then cache[wallet] else ShareCache(0, 0)
  }

  function Cached(cache: Cache, wallet: Bytes, diff: u64): Cache {
    var x := CacheEntry(cache, wallet);
    cache[wallet := ShareCache(Wrap32(x.numShares + 1), Wrap64(x.totalDiff + diff))]
  }

  function Packet(cache: Cache, k: Bytes): Bytes {
    var x := CacheEntry(cache, k);
    Frames.Encode(Frames.SharesFound(x.numShares, k, x.totalDiff))
  }

  /** One packet for each wallet, in the order of the range loop. */
  function Packets(cache: Cache, order: seq<Bytes>): seq<Bytes> {
    if order == [] then [] else Packets(cache, order[..|order| - 1]) + [Packet(cache, order[|order| - 1])]
  }

  /** The master's share bucket after one message; valid is the address library's verdict. */
  function Record(cfg: Config, valid: Bytes -> bool, shares: seq<Option<Share>>, msg: Bytes, now: u64): seq<Option<Share>> {
    match Frames.Decode(msg)
    case SharesFound(_, wallet, diff) => shares + Booking(cfg, valid, Entry(wallet, diff), now)
    case _ => shares
  }

  // ----- the two programs -----

  class SlaveCache {
    var shares: Cache

    constructor ()
      ensures shares == map[]
    {
      shares := map[];
    }

    method CacheShare(wallet: Bytes, diff: u64)
      modifies this
      ensures shares == Cached(old(shares), wallet, diff)
      ensures wallet in shares && shares[wallet].numShares == (CacheEntry(old(shares), wallet).numShares + 1) % TWO32
      ensures shares[wallet].totalDiff == (CacheEntry(old(shares), wallet).totalDiff + diff) % TWO64
      ensures shares - {wallet} == old(shares) - {wallet}
    {
      var x := CacheEntry(shares, wallet);
      x := x.(numShares := Wrap32(x.numShares + 1));
      x := x.(totalDiff := Wrap64(x.totalDiff + diff));
      shares := shares[wallet := x];
    }

    /** One turn of the flush loop. nonces(i) are the two nonces drawn for the i-th packet; order
        and sents are the order Go happened to use and what was sent. */
    method Flush(c: Frames.Cipher, conn: Frames.Conn?, nonces: nat -> (Bytes, Bytes))
      returns (ghost order: seq<Bytes>, ghost sents: seq<Frames.Sent>)
      modifies this, conn
      ensures conn == null ==> shares == old(shares)
      ensures conn != null ==>
                && shares == map[]
                && Enumerates(order, old(shares))
                && Frames.Messages(sents) == Packets(old(shares), order)
                && conn.written == old(conn.written) + Frames.Stream(c, sents)
    {
      hide Frames.Frame, Packet, Frames.Encode;
      order, sents := [], [];
      if conn == null { return; }
      var left := shares.Keys;
      var i := 0;
      assert conn.written + Frames.Stream(c, sents) == conn.written;
      while left != {}
        invariant left <= shares.Keys && shares == old(shares)
        invariant Distinct(order) && forall k :: k in order <==> k in shares && k !in left
        invariant Frames.Messages(sents) == Packets(shares, order)
        invariant conn.written == old(conn.written) + Frames.Stream(c, sents)
        decreases left
      {
        var k :| k in left;
        var msg := Frames.SendCachedShare(shares[k].numShares, k, shares[k].totalDiff);
        conn.SendToConn(c, msg, nonces(i).0, nonces(i).1);
        ghost var sent := Frames.Sent(msg, nonces(i).0, nonces(i).1);
        assert msg == Packet(shares, k) by { PacketOf(shares, k); }
        SentAppend(c, sents, sent);
        assert (order + [k])[..|order|] == order;
        order, sents := order + [k], sents + [sent];
        left := left - {k};
        i := i + 1;
      }
      shares := map[];
    }
  }

  lemma PacketOf(cache: Cache, k: Bytes)
    requires k in cache
    ensures Packet(cache, k) == Frames.Encode(Frames.SharesFound(cache[k].numShares, k, cache[k].totalDiff))
  {
    hide Frames.Encode;
  }

  lemma {:induction false} SentAppend(c: Frames.Cipher, sents: seq<Frames.Sent>, s: Frames.Sent)
    ensures Frames.Stream(c, sents + [s]) == Frames.Stream(c, sents) + Frames.Frame(c, s)
    ensures Frames.Messages(sents + [s]) == Frames.Messages(sents) + [s.msg]
  {
    hide Frames.Frame;
    if sents == [] {
      assert sents + [s] == [s] && [s][1..] == [];
    } else {
      assert (sents + [s])[1..] == sents[1..] + [s];
      SentAppend(c, sents[1..], s);
    }
  }

  /** OnMessage on the master, for a message that came over a slave's connection. */
  method HandleMessage(pool: Pool, valid: Bytes -> bool, msg: Bytes, now: u64)
    modifies pool
    ensures pool.shares == Record(pool.cfg, valid, old(pool.shares), msg, now)
    ensures pool.pending == old(pool.pending) && pool.info == old(pool.info)
  {
    hide Frames.Decode, Route;
    var p := Frames.OnMessage(msg);
    if p.SharesFound? {
      pool.OnShareFound(p.wallet, p.diff, valid(p.wallet), now);
    }
  }

  /** What the bucket gets for a share packet: one share with its difficulty, under its wallet if that is
      valid, under the fee address if it is not, and nothing if the one that applies is banned. */
  lemma RecordedFor(cfg: Config, valid: Bytes -> bool, shares: seq<Option<Share>>, count: u32, wallet: Bytes, diff: u64, now: u64)
    requires |wallet| < TWO63
    ensures var owner := if valid(wallet) then wallet else cfg.feeAddress;
            Record(cfg, valid, shares, Frames.Encode(Frames.SharesFound(count, wallet, diff)), now)
              == shares + if owner in cfg.banned then [] else [Some(Share(owner, diff, now))]
  {
    hide Frames.Encode, Frames.Decode;
    Frames.PacketRoundTrip(Frames.SharesFound(count, wallet, diff));
  }

  /** The wallets booked to r: r itself when it is valid, and every invalid one when r is the fee address;
      none when r is banned. */
  lemma RoutedExactly(cfg: Config, valid: Bytes -> bool, r: Bytes, wallet: Bytes)
    ensures RoutedTo(cfg, valid, r)(wallet) <==>
              r !in cfg.banned && (if valid(wallet) then wallet == r else r == cfg.feeAddress)
  {
    assert RoutedTo(cfg, valid, r)(wallet) <==> Route(cfg, wallet, valid(wallet)) == Some(r);
    var w := if valid(wallet) then wallet else cfg.feeAddress;
    assert Route(cfg, wallet, valid(wallet)) == if w in cfg.banned then None else Some(w);
  }

  // ----- the whole system -----

  datatype Entry = Entry(wallet: Bytes, diff: u64)

  /** What the master books for one entry: nothing for a banned wallet. */
  function Booking(cfg: Config, valid: Bytes -> bool, e: Entry, now: u64): seq<Option<Share>> {
    match Route(cfg, e.wallet, valid(e.wallet))
    case None => []
    case Some(r) => [Some(Share(r, e.diff, now))]
  }

  datatype Slave = Slave(cache: Cache, pipe: seq<Bytes>)

  datatype Step =
    | Submit(slave: nat, wallet: Bytes, diff: u64)
    | Flush(slave: nat, order: seq<Bytes>)
    | Deliver(slave: nat, now: u64)
    | Drop(slave: nat, index: nat)

  /** The slaves, the master's bucket, and what happened so far. */
  datatype World = World(
    slaves: seq<Slave>,
    shares: seq<Option<Share>>,
    submitted: seq<Entry>,
    overflowed: seq<Bytes>,  // wallets whose cached sum wrapped around, once for each time
    dropped: seq<Bytes>,     // messages lost with a connection
    delivered: seq<Bytes>)   // messages handled by the master

  function Idle(n: nat): seq<Slave> {
    if n == 0 then [] else Idle(n - 1) + [Slave(map[], [])]
  }

  function Start(n: nat): World {
    World(Idle(n), [], [], [], [], [])
  }

  function After(cfg: Config, valid: Bytes -> bool, w: World, s: Step): World {
    if s.slave >= |w.slaves| then w
    else
      var sl := w.slaves[s.slave];
      match s
      case Submit(i, wallet, diff) =>
        w.(slaves := w.slaves[i := sl.(cache := Cached(sl.cache, wallet, diff))],
           submitted := w.submitted + [Entry(wallet, diff)],
           overflowed := w.overflowed + if CacheEntry(sl.cache, wallet).totalDiff + diff < TWO64 then [] else [wallet])
      case Flush(i, order) =>
        w.(slaves := w.slaves[i := Slave(map[], sl.pipe + Packets(sl.cache, order))])
      case Deliver(i, now) =>
        if sl.pipe == [] then w
        else
          w.(slaves := w.slaves[i := sl.(pipe := sl.pipe[1..])],
             shares := Record(cfg, valid, w.shares, sl.pipe[0], now),
             delivered := w.delivered + [sl.pipe[0]])
      case Drop(i, k) =>
        if k >= |sl.pipe| then w
        else
          w.(slaves := w.slaves[i := sl.(pipe := sl.pipe[..k] + sl.pipe[k + 1..])],
             dropped := w.dropped + [sl.pipe[k]])
  }

  function Run(cfg: Config, valid: Bytes -> bool, n: nat, steps: seq<Step>): World {
    if steps == [] then Start(n)
    else After(cfg, valid, Run(cfg, valid, n, steps[..|steps| - 1]), steps[|steps| - 1])
  }

  /** A flush visits every cached wallet once; wallets are Go strings. */
  ghost predicate Sound(w: World, s: Step) {
    && (s.Submit? ==> |s.wallet| < TWO63)
    && (s.Flush? && s.slave < |w.slaves| ==> Enumerates(s.order, w.slaves[s.slave].cache))
  }

  ghost predicate SoundRun(cfg: Config, valid: Bytes -> bool, n: nat, steps: seq<Step>) {
    steps == [] ||
    var before := steps[..|steps| - 1];
    SoundRun(cfg, valid, n, before) && Sound(Run(cfg, valid, n, before), steps[|steps| - 1])
  }

  // ----- difficulty held for a class p of wallets -----

  function Weight(entries: seq<Entry>, p: Bytes -> bool): nat {
    if entries == [] then 0
    else
      var e := entries[|entries| - 1];
      Weight(entries[..|entries| - 1], p) + if p(e.wallet) then e.diff else 0
  }

  function Carried(msg: Bytes, p: Bytes -> bool): nat {
    match Frames.Decode(msg)
    case SharesFound(_, wallet, diff) => if p(wallet) then diff else 0
    case _ => 0
  }

  function InMessages(msgs: seq<Bytes>, p: Bytes -> bool): nat {
    if msgs == [] then 0 else InMessages(msgs[..|msgs| - 1], p) + Carried(msgs[|msgs| - 1], p)
  }

  function Totals(cache: Cache, p: Bytes -> bool): map<Bytes, nat> {
    map k | k in cache && p(k) :: cache[k].totalDiff
  }

  ghost function InCache(cache: Cache, p: Bytes -> bool): nat {
    Sum(Totals(cache, p))
  }

  ghost function InSlaves(slaves: seq<Slave>, p: Bytes -> bool): nat {
    if slaves == [] then 0
    else
      var s := slaves[|slaves| - 1];
      InSlaves(slaves[..|slaves| - 1], p) + InCache(s.cache, p) + InMessages(s.pipe, p)
  }

  function Overflows(wallets: seq<Bytes>, p: Bytes -> bool): nat {
    if wallets == [] then 0
    else Overflows(wallets[..|wallets| - 1], p) + if p(wallets[|wallets| - 1]) then TWO64 else 0
  }

  ghost predicate Balanced(w: World, p: Bytes -> bool) {
    Weight(w.submitted, p)
      == InSlaves(w.slaves, p) + InMessages(w.dropped, p) + InMessages(w.delivered, p) + Overflows(w.overflowed, p)
  }

  ghost predicate WalletsOk(w: World) {
    forall i, k :: 0 <= i < |w.slaves| && k in w.slaves[i].cache ==> |k| < TWO63
  }

  // -- how the sums change

  lemma WeightAppend(entries: seq<Entry>, e: Entry, p: Bytes -> bool)
    ensures Weight(entries + [e], p) == Weight(entries, p) + if p(e.wallet) then e.diff else 0
  {
    assert (entries + [e])[..|entries|] == entries;
  }

  lemma OverflowsAppend(wallets: seq<Bytes>, x: Bytes, p: Bytes -> bool)
    ensures Overflows(wallets + [x], p) == Overflows(wallets, p) + if p(x) then TWO64 else 0
  {
    assert (wallets + [x])[..|wallets|] == wallets;
  }

  lemma MessagesAppend(msgs: seq<Bytes>, m: Bytes, p: Bytes -> bool)
    ensures InMessages(msgs + [m], p) == InMessages(msgs, p) + Carried(m, p)
  {
    hide Carried;
    assert (msgs + [m])[..|msgs|] == msgs;
  }

  lemma {:induction false} MessagesConcat(a: seq<Bytes>, b: seq<Bytes>, p: Bytes -> bool)
    ensures InMessages(a + b, p) == InMessages(a, p) + InMessages(b, p)
    decreases |b|
  {
    hide Carried;
    if b == [] {
      assert a + b == a;
    } else {
      var n := |b| - 1;
      assert (a + b)[..|a + b| - 1] == a + b[..n];
      MessagesConcat(a, b[..n], p);
    }
  }

  lemma MessageTaken(msgs: seq<Bytes>, k: nat, p: Bytes -> bool)
    requires k < |msgs|
    ensures InMessages(msgs, p) == InMessages(msgs[..k] + msgs[k + 1..], p) + Carried(msgs[k], p)
  {
    hide Carried, InMessages;
    MessagesConcat(msgs[..k], msgs[k + 1..], p);
    MessagesAppend(msgs[..k], msgs[k], p);
    MessagesConcat(msgs[..k] + [msgs[k]], msgs[k + 1..], p);
    assert msgs[..k] + [msgs[k]] + msgs[k + 1..] == msgs;
  }

  lemma {:induction false} SlaveChanged(slaves: seq<Slave>, i: nat, s: Slave, p: Bytes -> bool)
    requires i < |slaves|
    ensures InSlaves(slaves[i := s], p) + InCache(slaves[i].cache, p) + InMessages(slaves[i].pipe, p)
         == InSlaves(slaves, p) + InCache(s.cache, p) + InMessages(s.pipe, p)
    decreases |slaves|
  {
    hide InCache, InMessages;
    var n := |slaves| - 1;
    if i == n {
      assert slaves[i := s][..n] == slaves[..n];
    } else {
      assert slaves[i := s][..n] == slaves[..n][i := s];
      SlaveChanged(slaves[..n], i, s, p);
    }
  }

  lemma EmptySlave(p: Bytes -> bool)
    ensures InCache(map[], p) == 0 && InMessages([], p) == 0
  {
    assert Totals(map[], p) == map[];
  }

  lemma CachedWeight(cache: Cache, wallet: Bytes, diff: u64, p: Bytes -> bool)
    ensures var over := if CacheEntry(cache, wallet).totalDiff + diff < TWO64 then 0 else TWO64;
            InCache(Cached(cache, wallet, diff), p) + (if p(wallet) then over else 0)
              == InCache(cache, p) + if p(wallet) then diff else 0
  {
    hide Sum;
    var next := Cached(cache, wallet, diff);
    if p(wallet) {
      assert Totals(next, p) == Totals(cache, p)[wallet := next[wallet].totalDiff];
      SumUpdate(Totals(cache, p), wallet, next[wallet].totalDiff);
    } else {
      assert Totals(next, p) == Totals(cache, p);
    }
  }

  lemma PacketCarries(cache: Cache, k: Bytes, p: Bytes -> bool)
    requires k in cache && |k| < TWO63
    ensures Carried(Packet(cache, k), p) == if p(k) then cache[k].totalDiff else 0
  {
    hide Frames.Encode, Frames.Decode;
    Frames.PacketRoundTrip(Frames.SharesFound(cache[k].numShares, k, cache[k].totalDiff));
  }

  function TotalsOf(cache: Cache, order: seq<Bytes>, p: Bytes -> bool): map<Bytes, nat> {
    map k | k in order && k in cache && p(k) :: cache[k].totalDiff
  }

  lemma {:induction false} PacketsCarry(cache: Cache, order: seq<Bytes>, p: Bytes -> bool)
    requires Distinct(order) && forall k :: k in order ==> k in cache && |k| < TWO63
    ensures InMessages(Packets(cache, order), p) == Sum(TotalsOf(cache, order, p))
  {
    hide Carried, Packet, Sum, TotalsOf;
    if order == [] {
      NoTotals(cache, p);
    } else {
      var n := |order| - 1;
      var init, k := order[..n], order[n];
      assert order == init + [k] && k !in init;
      PacketsCarry(cache, init, p);
      MessagesAppend(Packets(cache, init), Packet(cache, k), p);
      PacketCarries(cache, k, p);
      OneMoreTotal(cache, init, k, p);
    }
  }

  lemma NoTotals(cache: Cache, p: Bytes -> bool)
    ensures Sum(TotalsOf(cache, [], p)) == 0
  {
    assert TotalsOf(cache, [], p) == map[];
  }

  lemma OneMoreTotal(cache: Cache, order: seq<Bytes>, k: Bytes, p: Bytes -> bool)
    requires k in cache && k !in order
    ensures Sum(TotalsOf(cache, order + [k], p)) == Sum(TotalsOf(cache, order, p)) + if p(k) then cache[k].totalDiff else 0
  {
    hide Sum;
    var before, after := TotalsOf(cache, order, p), TotalsOf(cache, order + [k], p);
    if p(k) {
      assert after == before[k := cache[k].totalDiff];
      SumUpdate(before, k, cache[k].totalDiff);
    } else {
      assert after == before;
    }
  }

  /** A flush moves exactly the cached difficulty onto the wire. */
  lemma FlushMovesAll(cache: Cache, order: seq<Bytes>, p: Bytes -> bool)
    requires Enumerates(order, cache) && forall k :: k in cache ==> |k| < TWO63
    ensures InMessages(Packets(cache, order), p) == InCache(cache, p)
  {
    hide Sum, InMessages, Packets;
    PacketsCarry(cache, order, p);
    assert TotalsOf(cache, order, p) == Totals(cache, p);
  }

  // -- conservation

  lemma StepKeepsWallets(cfg: Config, valid: Bytes -> bool, w: World, s: Step)
    requires WalletsOk(w) && Sound(w, s)
    ensures WalletsOk(After(cfg, valid, w, s))
  {
    hide Record, Packets, Enumerates;
  }

  lemma SubmitBalances(cfg: Config, valid: Bytes -> bool, w: World, s: Step, p: Bytes -> bool)
    requires s.Submit? && Balanced(w, p)
    ensures Balanced(After(cfg, valid, w, s), p)
  {
    hide Weight, InSlaves, InCache, InMessages, Overflows, Cached;
    if s.slave < |w.slaves| {
      var sl := w.slaves[s.slave];
      WeightAppend(w.submitted, Entry(s.wallet, s.diff), p);
      OverflowsAppend(w.overflowed, s.wallet, p);
      SlaveChanged(w.slaves, s.slave, sl.(cache := Cached(sl.cache, s.wallet, s.diff)), p);
      CachedWeight(sl.cache, s.wallet, s.diff, p);
      assert w.overflowed + [] == w.overflowed;
    }
  }

  lemma FlushBalances(cfg: Config, valid: Bytes -> bool, w: World, s: Step, p: Bytes -> bool)
    requires s.Flush? && WalletsOk(w) && Sound(w, s) && Balanced(w, p)
    ensures Balanced(After(cfg, valid, w, s), p)
  {
    hide Weight, InSlaves, InCache, InMessages, Overflows, Packets, Enumerates;
    if s.slave < |w.slaves| {
      var sl := w.slaves[s.slave];
      SlaveChanged(w.slaves, s.slave, Slave(map[], sl.pipe + Packets(sl.cache, s.order)), p);
      FlushMovesAll(sl.cache, s.order, p);
      MessagesConcat(sl.pipe, Packets(sl.cache, s.order), p);
      EmptySlave(p);
    }
  }

  lemma TransportBalances(cfg: Config, valid: Bytes -> bool, w: World, s: Step, p: Bytes -> bool)
    requires s.Deliver? || s.Drop?
    requires Balanced(w, p)
    ensures Balanced(After(cfg, valid, w, s), p)
  {
    hide Weight, InSlaves, InCache, InMessages, Overflows, Record, Carried;
    if s.slave < |w.slaves| {
      var pipe := w.slaves[s.slave].pipe;
      var k := if s.Drop? then s.index else 0;
      if k < |pipe| {
        MessageTaken(pipe, k, p);
        var rest := pipe[..k] + pipe[k + 1..];
        assert s.Deliver? ==> rest == pipe[1..];
        SlaveChanged(w.slaves, s.slave, w.slaves[s.slave].(pipe := rest), p);
        MessagesAppend(w.dropped, pipe[k], p);
        MessagesAppend(w.delivered, pipe[k], p);
      }
    }
  }

  lemma StepBalances(cfg: Config, valid: Bytes -> bool, w: World, s: Step, p: Bytes -> bool)
    requires WalletsOk(w) && Sound(w, s) && Balanced(w, p)
    ensures Balanced(After(cfg, valid, w, s), p)
  {
    hide After, Balanced, Sound, WalletsOk;
    match s
    case Submit(_, _, _) => SubmitBalances(cfg, valid, w, s, p);
    case Flush(_, _) => FlushBalances(cfg, valid, w, s, p);
    case Deliver(_, _) => TransportBalances(cfg, valid, w, s, p);
    case Drop(_, _) => TransportBalances(cfg, valid, w, s, p);
  }

  lemma {:induction false} IdleSlaves(n: nat, p: Bytes -> bool)
    ensures InSlaves(Idle(n), p) == 0
    ensures forall s :: s in Idle(n) ==> s == Slave(map[], [])
  {
    hide InCache, InMessages;
    if n > 0 {
      IdleSlaves(n - 1, p);
      EmptySlave(p);
      assert Idle(n)[..|Idle(n)| - 1] == Idle(n - 1);
    }
  }

  lemma StartBalances(n: nat, p: Bytes -> bool)
    ensures Balanced(Start(n), p) && WalletsOk(Start(n))
  {
    hide InSlaves;
    IdleSlaves(n, p);
    assert forall i :: 0 <= i < |Start(n).slaves| ==> Start(n).slaves[i] in Idle(n);
  }

  /** Whatever way submissions, flushes, deliveries and losses interleave at any number of slaves:
      the difficulty submitted for any class of wallets is what is cached, on the wire, lost and
      handled by the master, plus 2^64 for every time a cached sum wrapped around. */
  lemma {:induction false} DifficultyIsConserved(cfg: Config, valid: Bytes -> bool, n: nat, steps: seq<Step>, p: Bytes -> bool)
    requires SoundRun(cfg, valid, n, steps)
    ensures Balanced(Run(cfg, valid, n, steps), p) && WalletsOk(Run(cfg, valid, n, steps))
  {
    hide After, Sound, Start, Balanced, WalletsOk;
    if steps == [] {
      StartBalances(n, p);
    } else {
      var before := steps[..|steps| - 1];
      DifficultyIsConserved(cfg, valid, n, before, p);
      StepBalances(cfg, valid, Run(cfg, valid, n, before), steps[|steps| - 1], p);
      StepKeepsWallets(cfg, valid, Run(cfg, valid, n, before), steps[|steps| - 1]);
    }
  }

  // ----- what the master has recorded -----

  /** Difficulty in the bucket under wallet r. */
  function Booked(shares: seq<Option<Share>>, r: Bytes): nat {
    if shares == [] then 0
    else
      var x := shares[|shares| - 1];
      Booked(shares[..|shares| - 1], r) + if x.Some? && x.value.wallet == r then x.value.diff else 0
  }

  /** The wallets whose shares are booked to r. */
  function RoutedTo(cfg: Config, valid: Bytes -> bool, r: Bytes): Bytes -> bool {
    w => Route(cfg, w, valid(w)) == Some(r)
  }

  /** The bucket had every share been recorded as it was submitted, the i-th at time at(i). */
  function Singly(cfg: Config, valid: Bytes -> bool, entries: seq<Entry>, at: nat -> u64): seq<Option<Share>> {
    if entries == [] then []
    else
      var n := |entries| - 1;
      Singly(cfg, valid, entries[..n], at) + Booking(cfg, valid, entries[n], at(n))
  }

  lemma BookingBooks(cfg: Config, valid: Bytes -> bool, shares: seq<Option<Share>>, e: Entry, now: u64, r: Bytes)
    ensures Booked(shares + Booking(cfg, valid, e, now), r)
         == Booked(shares, r) + if RoutedTo(cfg, valid, r)(e.wallet) then e.diff else 0
  {
    hide Route;
    match Route(cfg, e.wallet, valid(e.wallet))
    case None => assert shares + [] == shares;
    case Some(x) => assert (shares + [Some(Share(x, e.diff, now))])[..|shares|] == shares;
  }

  lemma {:induction false} SinglyBooks(cfg: Config, valid: Bytes -> bool, entries: seq<Entry>, at: nat -> u64, r: Bytes)
    ensures Booked(Singly(cfg, valid, entries, at), r) == Weight(entries, RoutedTo(cfg, valid, r))
  {
    hide Booking, Booked, RoutedTo;
    if entries == [] {
      NothingBooked(r);
    } else {
      var n := |entries| - 1;
      SinglyBooks(cfg, valid, entries[..n], at, r);
      BookingBooks(cfg, valid, Singly(cfg, valid, entries[..n], at), entries[n], at(n), r);
    }
  }

  lemma NothingBooked(r: Bytes)
    ensures Booked([], r) == 0
  {
  }

  lemma RecordBooks(cfg: Config, valid: Bytes -> bool, shares: seq<Option<Share>>, msg: Bytes, now: u64, r: Bytes)
    ensures Booked(Record(cfg, valid, shares, msg, now), r)
         == Booked(shares, r) + Carried(msg, RoutedTo(cfg, valid, r))
  {
    hide Frames.Decode, Booking, Booked, RoutedTo;
    match Frames.Decode(msg)
    case SharesFound(_, wallet, diff) => BookingBooks(cfg, valid, shares, Entry(wallet, diff), now, r);
    case _ =>
  }

  lemma {:induction false} MasterBooksDelivered(cfg: Config, valid: Bytes -> bool, n: nat, steps: seq<Step>, r: Bytes)
    ensures var w := Run(cfg, valid, n, steps);
            Booked(w.shares, r) == InMessages(w.delivered, RoutedTo(cfg, valid, r))
  {
    hide Record, Booked, InMessages, RoutedTo, Cached, Packets;
    if steps == [] {
      NothingBooked(r);
      EmptySlave(RoutedTo(cfg, valid, r));
    } else {
      var before := steps[..|steps| - 1];
      var w, s := Run(cfg, valid, n, before), steps[|steps| - 1];
      MasterBooksDelivered(cfg, valid, n, before, r);
      if s.Deliver? && s.slave < |w.slaves| && w.slaves[s.slave].pipe != [] {
        var msg := w.slaves[s.slave].pipe[0];
        RecordBooks(cfg, valid, w.shares, msg, s.now, r);
        MessagesAppend(w.delivered, msg, RoutedTo(cfg, valid, r));
      }
    }
  }

  /** At any moment of any run, no wallet has more difficulty recorded than recording every share
      singly would have given it; the difference is what is still cached, on the wire or lost. */
  lemma NothingCountsTwice(cfg: Config, valid: Bytes -> bool, n: nat, steps: seq<Step>, at: nat -> u64, r: Bytes)
    requires SoundRun(cfg, valid, n, steps)
    ensures var w := Run(cfg, valid, n, steps);
            var p := RoutedTo(cfg, valid, r);
            Booked(w.shares, r) + InSlaves(w.slaves, p) + InMessages(w.dropped, p) + Overflows(w.overflowed, p)
              == Booked(Singly(cfg, valid, w.submitted, at), r)
  {
    hide Run, SoundRun, Booked, InSlaves, InMessages, Overflows, Weight, Singly, RoutedTo, WalletsOk;
    var w := Run(cfg, valid, n, steps);
    MasterBooksDelivered(cfg, valid, n, steps, r);
    DifficultyIsConserved(cfg, valid, n, steps, RoutedTo(cfg, valid, r));
    SinglyBooks(cfg, valid, w.submitted, at, r);
  }

  // ----- batching changes no reward -----

  predicate Nonzero(msg: Bytes) {
    match Frames.Decode(msg)
    case SharesFound(_, _, diff) => diff > 0
    case _ => true
  }

  ghost predicate NonzeroCache(cache: Cache) {
    forall k :: k in cache ==> |k| < TWO63 && cache[k].totalDiff > 0
  }

  ghost predicate NonzeroSlave(s: Slave) {
    NonzeroCache(s.cache) && forall m :: m in s.pipe ==> Nonzero(m)
  }

  ghost predicate NonzeroWorld(w: World) {
    (forall s :: s in w.slaves ==> NonzeroSlave(s)) && LedgerRuns.Positive(w.shares)
  }

  /** Every share has a difficulty, and no cached sum has wrapped around. */
  ghost predicate Plain(w: World) {
    w.overflowed == [] && forall e :: e in w.submitted ==> e.diff > 0
  }

  lemma RecordKeepsPositive(cfg: Config, valid: Bytes -> bool, shares: seq<Option<Share>>, msg: Bytes, now: u64)
    requires LedgerRuns.Positive(shares) && Nonzero(msg)
    ensures LedgerRuns.Positive(Record(cfg, valid, shares, msg, now))
  {
    hide Frames.Decode, Route;
  }

  lemma {:induction false} PacketsNonzero(cache: Cache, order: seq<Bytes>)
    requires NonzeroCache(cache) && forall k :: k in order ==> k in cache
    ensures forall m :: m in Packets(cache, order) ==> Nonzero(m)
  {
    hide Frames.Encode, Frames.Decode;
    if order != [] {
      var n := |order| - 1;
      var k := order[n];
      assert k in order && order == order[..n] + [k];
      PacketsNonzero(cache, order[..n]);
      Frames.PacketRoundTrip(Frames.SharesFound(cache[k].numShares, k, cache[k].totalDiff));
    }
  }

  lemma NonzeroStep(cfg: Config, valid: Bytes -> bool, w: World, s: Step)
    requires Sound(w, s) && NonzeroWorld(w) && Plain(After(cfg, valid, w, s))
    ensures NonzeroWorld(After(cfg, valid, w, s))
  {
    hide Record, Packets, Nonzero, LedgerRuns.Positive;
    if s.slave < |w.slaves| {
      var sl := w.slaves[s.slave];
      assert sl in w.slaves;
      match s
      case Submit(_, wallet, diff) =>
        var e := Entry(wallet, diff);
        assert e in w.submitted + [e];
        assert NonzeroCache(Cached(sl.cache, wallet, diff));
      case Flush(_, order) => PacketsNonzero(sl.cache, order);
      case Deliver(_, now) =>
        if sl.pipe != [] {
          RecordKeepsPositive(cfg, valid, w.shares, sl.pipe[0], now);
        }
      case Drop(_, _) =>
    }
  }

  lemma PlainBefore(cfg: Config, valid: Bytes -> bool, w: World, s: Step)
    requires Plain(After(cfg, valid, w, s))
    ensures Plain(w)
  {
    hide Record, Packets, Cached;
    var later := After(cfg, valid, w, s);
    assert w.overflowed <= later.overflowed && w.submitted <= later.submitted;
    assert forall e :: e in w.submitted ==> e in later.submitted;
  }

  lemma {:induction false} PlainRunsStayNonzero(cfg: Config, valid: Bytes -> bool, n: nat, steps: seq<Step>)
    requires SoundRun(cfg, valid, n, steps) && Plain(Run(cfg, valid, n, steps))
    ensures NonzeroWorld(Run(cfg, valid, n, steps))
  {
    hide After, Sound, Plain, NonzeroSlave;
    if steps == [] {
      IdleSlaves(n, _ => true);
      assert NonzeroSlave(Slave(map[], [])) by { EmptyNonzero(); }
    } else {
      var before := steps[..|steps| - 1];
      var w, s := Run(cfg, valid, n, before), steps[|steps| - 1];
      PlainBefore(cfg, valid, w, s);
      PlainRunsStayNonzero(cfg, valid, n, before);
      NonzeroStep(cfg, valid, w, s);
    }
  }

  lemma EmptyNonzero()
    ensures NonzeroSlave(Slave(map[], []))
  {
  }

  function Only(x: Bytes): Bytes -> bool {
    w => w == x
  }

  lemma NoOverflow(cfg: Config, valid: Bytes -> bool, n: nat, steps: seq<Step>)
    requires SoundRun(cfg, valid, n, steps)
    requires forall x :: Weight(Run(cfg, valid, n, steps).submitted, Only(x)) < TWO64
    ensures Run(cfg, valid, n, steps).overflowed == []
  {
    hide Run, SoundRun, Weight, InSlaves, InMessages, WalletsOk;
    var over := Run(cfg, valid, n, steps).overflowed;
    if over != [] {
      DifficultyIsConserved(cfg, valid, n, steps, Only(over[|over| - 1]));
    }
  }

  ghost predicate AllLive(shares: seq<Option<Share>>, clock: Clock) {
    forall x :: x in shares ==> Counts(x, clock)
  }

  lemma {:induction false} TotalsAreBooked(shares: seq<Option<Share>>, clock: Clock, r: Bytes)
    requires AllLive(shares, clock) && LedgerRuns.Positive(shares)
    ensures var totals := MinersTotals(shares, clock);
            Get(totals, r) == Booked(shares, r) && (r in totals <==> Booked(shares, r) > 0)
  {
    hide Counts;
    if shares != [] {
      var n := |shares| - 1;
      assert shares[n] in shares && shares == shares[..n] + [shares[n]];
      assert Counts(shares[n], clock) && shares[n].Some? by { LiveIsRecord(shares[n], clock); }
      TotalsAreBooked(shares[..n], clock, r);
    }
  }

  lemma LiveIsRecord(x: Option<Share>, clock: Clock)
    requires Counts(x, clock)
    ensures x.Some?
  {
  }

  lemma {:induction false} SinglyPositive(cfg: Config, valid: Bytes -> bool, entries: seq<Entry>, at: nat -> u64)
    requires forall e :: e in entries ==> e.diff > 0
    ensures LedgerRuns.Positive(Singly(cfg, valid, entries, at))
  {
    hide Route;
    if entries != [] {
      var n := |entries| - 1;
      assert entries[n] in entries && entries == entries[..n] + [entries[n]];
      SinglyPositive(cfg, valid, entries[..n], at);
    }
  }

  ghost predicate Quiet(w: World) {
    forall s :: s in w.slaves ==> s == Slave(map[], [])
  }

  lemma {:induction false} QuietHoldsNothing(slaves: seq<Slave>, p: Bytes -> bool)
    requires forall s :: s in slaves ==> s == Slave(map[], [])
    ensures InSlaves(slaves, p) == 0
  {
    hide InCache, InMessages;
    if slaves != [] {
      var n := |slaves| - 1;
      assert slaves[n] in slaves && forall s :: s in slaves[..n] ==> s in slaves;
      QuietHoldsNothing(slaves[..n], p);
      EmptySlave(p);
    }
  }

  /** Once every cache and wire is empty, the master computes for a reward the same total for
      each wallet as if every share had been recorded singly, if and only if no difficulty it
      would have booked was lost with a connection: invalid wallets count for the fee address and
      banned ones for nobody either way. No wallet may submit 2^64 of difficulty, and all shares
      are within the window. */
  lemma BatchedAgreesWithSingle(cfg: Config, valid: Bytes -> bool, n: nat, steps: seq<Step>, at: nat -> u64, clock: Clock)
    requires SoundRun(cfg, valid, n, steps) && Quiet(Run(cfg, valid, n, steps))
    requires forall e :: e in Run(cfg, valid, n, steps).submitted ==> e.diff > 0
    requires forall x :: Weight(Run(cfg, valid, n, steps).submitted, Only(x)) < TWO64
    requires AllLive(Run(cfg, valid, n, steps).shares, clock)
    requires AllLive(Singly(cfg, valid, Run(cfg, valid, n, steps).submitted, at), clock)
    ensures var w := Run(cfg, valid, n, steps);
            (MinersTotals(w.shares, clock) == MinersTotals(Singly(cfg, valid, w.submitted, at), clock)
             <==> (forall r :: InMessages(w.dropped, RoutedTo(cfg, valid, r)) == 0))
  {
    hide Run, SoundRun, Booked, InSlaves, InMessages, MinersTotals, Weight, Singly, RoutedTo, AllLive, LedgerRuns.Positive, Only;
    var w := Run(cfg, valid, n, steps);
    var single := Singly(cfg, valid, w.submitted, at);
    NoOverflow(cfg, valid, n, steps);
    PlainRunsStayNonzero(cfg, valid, n, steps);
    SinglyPositive(cfg, valid, w.submitted, at);
    forall r
      ensures Get(MinersTotals(w.shares, clock), r) + InMessages(w.dropped, RoutedTo(cfg, valid, r))
           == Get(MinersTotals(single, clock), r)
      ensures r in MinersTotals(w.shares, clock) <==> Get(MinersTotals(w.shares, clock), r) > 0
      ensures r in MinersTotals(single, clock) <==> Get(MinersTotals(single, clock), r) > 0
    {
      NothingCountsTwice(cfg, valid, n, steps, at, r);
      QuietHoldsNothing(w.slaves, RoutedTo(cfg, valid, r));
      TotalsAreBooked(w.shares, clock, r);
      TotalsAreBooked(single, clock, r);
    }
  }
}
