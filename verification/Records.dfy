/** The records the master stores (database/database.go) and their byte layout. */
module Records {
  import opened GoTypes
  import opened Codec

  datatype Share = Share(wallet: Bytes, diff: u64, time: u64)
  datatype UnconfTx = UnconfTx(unlockHeight: u64, txnBlockHash: Bytes, bals: map<Bytes, u64>)
  datatype PendingBals = PendingBals(lastHeight: u64, unconfirmedTxs: seq<UnconfTx>)
  datatype AddrInfo = AddrInfo(balance: u64, balancePending: u64, paid: u64)

  /** What a Deserialize method leaves behind. */
  datatype Decoded<+T> = Decoded(value: T, rest: Bytes, error: bool) | Panics

  const VERSION: byte := 0

  /** make([]UnconfTx, 0, n) panics when n elements of 48 bytes pass the 2^48-byte limit on one allocation. */
  const MAX_UNCONF: nat := 0x1_0000_0000_0000 / 48

  /** Values Go can hold: lengths are ints, the hash is a [32]byte. */
  ghost predicate ValidTx(tx: UnconfTx) {
    && |tx.txnBlockHash| == 32
    && |tx.bals| < TWO63
    && forall k :: k in tx.bals ==> |k| < TWO63
  }

  ghost predicate ValidPending(p: PendingBals) {
    && |p.unconfirmedTxs| <= MAX_UNCONF
    && forall tx :: tx in p.unconfirmedTxs ==> ValidTx(tx)
  }

  // ----- writing -----

  function EncShare(x: Share): Bytes {
    [VERSION] + EncString(x.wallet) + EncLittleEndian(x.diff, 8) + EncLittleEndian(x.time, 8)
  }

  function EncAddrInfo(x: AddrInfo): Bytes {
    [VERSION] + EncUvarint(x.balance) + EncUvarint(x.balancePending) + EncUvarint(x.paid)
  }

  function EncBals(bals: map<Bytes, u64>, order: seq<Bytes>): Bytes
    requires forall k :: k in order ==> k in bals
  {
    if order == [] then []
    else EncBals(bals, order[..|order| - 1]) + EncString(order[|order| - 1]) + EncUvarint(bals[order[|order| - 1]])
  }

  function EncUnconfTx(x: UnconfTx, order: seq<Bytes>): Bytes
    requires forall k :: k in order ==> k in x.bals
  {
    [VERSION] + EncUvarint(x.unlockHeight) + x.txnBlockHash + EncUvarint(Wrap64(|x.bals|)) + EncBals(x.bals, order)
  }

  /** One visiting order for each record of the queue. */
  ghost predicate VisitsAll(orders: seq<seq<Bytes>>, txs: seq<UnconfTx>) {
    && |orders| == |txs|
    && forall i :: 0 <= i < |txs| ==> Enumerates(orders[i], txs[i].bals)
  }

  ghost function EncTxs(txs: seq<UnconfTx>, orders: seq<seq<Bytes>>): Bytes
    requires VisitsAll(orders, txs)
  {
    if txs == [] then []
    else
      var n := |txs| - 1;
      EncTxs(txs[..n], orders[..n]) + EncUnconfTx(txs[n], orders[n])
  }

  ghost function EncPending(x: PendingBals, orders: seq<seq<Bytes>>): Bytes
    requires VisitsAll(orders, x.unconfirmedTxs)
  {
    [VERSION] + EncUvarint(x.lastHeight) + EncUvarint(Wrap64(|x.unconfirmedTxs|)) + EncTxs(x.unconfirmedTxs, orders)
  }

  method SerializeShare(x: Share) returns (data: Bytes)
    ensures data == EncShare(x)
  {
    hide EncUvarint, EncString, EncLittleEndian;
    var s := new Serializer([]);
    s.AddUint8(VERSION);
    s.AddString(x.wallet);
    s.AddUint64(x.diff);
    s.AddUint64(x.time);
    return s.data;
  }

  method SerializeAddrInfo(x: AddrInfo) returns (data: Bytes)
    ensures data == EncAddrInfo(x)
  {
    hide EncUvarint;
    var s := new Serializer([]);
    s.AddUint8(VERSION);
    s.AddUvarint(x.balance);
    s.AddUvarint(x.balancePending);
    s.AddUvarint(x.paid);
    return s.data;
  }

  method SerializeUnconfTx(x: UnconfTx) returns (data: Bytes, ghost order: seq<Bytes>)
    requires ValidTx(x)
    ensures Enumerates(order, x.bals)
    ensures data == EncUnconfTx(x, order)
    ensures DecUnconfTx(data) == Decoded(x, [], false)
  {
    hide EncUvarint, EncString, EncBals, DecUnconfTx;
    var s := new Serializer([]);
    s.AddUint8(VERSION);
    s.AddUvarint(x.unlockHeight);
    s.AddFixedByteArray(x.txnBlockHash, 32);
    s.AddUvarint(Wrap64(|x.bals|));
    order := AddBals(s, x.bals);
    data := s.data;
    UnconfTxReadsBack(x, order, data);
  }

  lemma EncBalsOfNone(bals: map<Bytes, u64>)
    ensures EncBals(bals, []) == []
  {
  }

  lemma EncBalsStep(bals: map<Bytes, u64>, order: seq<Bytes>, k: Bytes)
    requires k in bals && forall j :: j in order ==> j in bals
    ensures EncBals(bals, order + [k]) == EncBals(bals, order) + EncString(k) + EncUvarint(bals[k])
  {
    assert (order + [k])[..|order|] == order;
  }

  /** The range loop over the balances. */
  method AddBals(s: Serializer, bals: map<Bytes, u64>) returns (ghost order: seq<Bytes>)
    modifies s
    ensures Enumerates(order, bals)
    ensures s.data == old(s.data) + EncBals(bals, order)
  {
    hide EncUvarint, EncString, EncBals;
    order := [];
    EncBalsOfNone(bals);
    var left := bals.Keys;
    while left != {}
      invariant left <= bals.Keys
      invariant forall i, j :: 0 <= i < j < |order| ==> order[i] != order[j]
      invariant forall k :: k in order <==> k in bals && k !in left
      invariant s.data == old(s.data) + EncBals(bals, order)
      decreases left
    {
      var k :| k in left;
      s.AddString(k);
      s.AddUvarint(bals[k]);
      EncBalsStep(bals, order, k);
      order := order + [k];
      left := left - {k};
    }
  }

  lemma EncTxsOfNone()
    ensures EncTxs([], []) == []
  {
  }

  lemma EncTxsStep(txs: seq<UnconfTx>, i: nat, orders: seq<seq<Bytes>>, order: seq<Bytes>)
    requires i < |txs| && VisitsAll(orders, txs[..i]) && Enumerates(order, txs[i].bals)
    ensures VisitsAll(orders + [order], txs[..i + 1])
    ensures EncTxs(txs[..i + 1], orders + [order]) == EncTxs(txs[..i], orders) + EncUnconfTx(txs[i], order)
  {
    assert txs[..i + 1][..i] == txs[..i] && (orders + [order])[..i] == orders;
  }

  method SerializePending(x: PendingBals) returns (data: Bytes, ghost orders: seq<seq<Bytes>>)
    requires ValidPending(x)
    ensures VisitsAll(orders, x.unconfirmedTxs)
    ensures data == EncPending(x, orders)
    ensures DecPending(data) == Decoded(x, [], false)
  {
    hide EncUvarint, EncUnconfTx, EncTxs, DecPending, DecUnconfTx;
    var s := new Serializer([]);
    s.AddUint8(VERSION);
    s.AddUvarint(x.lastHeight);
    s.AddUvarint(Wrap64(|x.unconfirmedTxs|));
    ghost var header := s.data;
    orders := [];
    EncTxsOfNone();
    var i := 0;
    while i < |x.unconfirmedTxs|
      invariant fresh(s)
      invariant 0 <= i <= |x.unconfirmedTxs|
      invariant VisitsAll(orders, x.unconfirmedTxs[..i])
      invariant s.data == header + EncTxs(x.unconfirmedTxs[..i], orders)
    {
      var bin, order := SerializeUnconfTx(x.unconfirmedTxs[i]);
      s.data := s.data + bin;
      EncTxsStep(x.unconfirmedTxs, i, orders, order);
      orders := orders + [order];
      i := i + 1;
    }
    assert x.unconfirmedTxs[..i] == x.unconfirmedTxs;
    data := s.data;
    PendingReadsBack(x, orders, data);
  }

  // ----- reading -----

  function DecShare(data: Bytes): Decoded<Share> {
    var (_, d1) := NextUint8(Start(data));
    var (wallet, d2) := NextByteSlice(d1);
    if d2.panicked then Panics
    else
      var (diff, d3) := NextUint64(d2);
      var (time, d4) := NextUint64(d3);
      Decoded(Share(wallet, diff, time), d4.data, d4.error)
  }

  function DecAddrInfo(data: Bytes): Decoded<AddrInfo> {
    var (_, d1) := NextUint8(Start(data));
    var (balance, d2) := NextUvarint(d1);
    var (pending, d3) := NextUvarint(d2);
    var (paid, d4) := NextUvarint(d3);
    Decoded(AddrInfo(balance, pending, paid), d4.data, d4.error)
  }

  /** The loop over the balances: n entries more, into bals. After an error every further entry
      is the zero value under the empty key. */
  function DecBals(d: Reader, n: nat, bals: map<Bytes, u64>): (map<Bytes, u64>, Reader)
    decreases n
  {
    if n == 0 then (bals, d)
    else
      var (k, d1) := NextByteSlice(d);
      if d1.panicked then (bals, d1)
      else
        var (v, d2) := NextUvarint(d1);
        DecBals(d2, n - 1, bals[k := v])
  }

  /** The slice-to-array conversion of the hash panics unless 32 bytes were read. */
  function DecUnconfTx(data: Bytes): Decoded<UnconfTx> {
    var (_, d1) := NextUint8(Start(data));
    var (height, d2) := NextUvarint(d1);
    var (hash, d3) := NextFixedByteArray(d2, 32);
    if |hash| < 32 then Panics
    else
      var (n, d4) := NextUvarint(d3);
      var count := ToInt(n);
      var (bals, d5) := DecBals(d4, if count < 0 then 0 else count, map[]);
      if d5.panicked then Panics
      else Decoded(UnconfTx(height, hash, bals), d5.data, d5.error)
  }

  function DecTxs(data: Bytes, n: nat, txs: seq<UnconfTx>): Decoded<seq<UnconfTx>>
    decreases n
  {
    if n == 0 then Decoded(txs, data, false)
    else
      match DecUnconfTx(data)
      case Panics => Panics
      case Decoded(tx, rest, error) =>
        if error then Decoded(txs, rest, true) else DecTxs(rest, n - 1, txs + [tx])
  }

  /** The receiver after an error is not used by any caller; it is described as far as filled. */
  function DecPending(data: Bytes): Decoded<PendingBals> {
    var (_, d1) := NextUint8(Start(data));
    var (height, d2) := NextUvarint(d1);
    var (n, d3) := NextUvarint(d2);
    var count := ToInt(n);
    if count < 0 || count > MAX_UNCONF then Panics
    else
      match DecTxs(d3.data, count, [])
      case Panics => Panics
      case Decoded(txs, rest, error) => Decoded(PendingBals(height, txs), rest, error || d3.error)
  }

  method DeserializeShare(data: Bytes) returns (r: Decoded<Share>)
    ensures r == DecShare(data)
  {
    var d := new Deserializer(data);
    var version := d.ReadUint8();
    var wallet := d.ReadString();
    if d.panicked { return Panics; }
    var diff := d.ReadUint64();
    var time := d.ReadUint64();
    return Decoded(Share(wallet, diff, time), d.data, d.error);
  }

  method DeserializeAddrInfo(data: Bytes) returns (r: Decoded<AddrInfo>)
    ensures r == DecAddrInfo(data)
  {
    var d := new Deserializer(data);
    var version := d.ReadUint8();
    var balance := d.ReadUvarint();
    var pending := d.ReadUvarint();
    var paid := d.ReadUvarint();
    return Decoded(AddrInfo(balance, pending, paid), d.data, d.error);
  }

  method DeserializeUnconfTx(data: Bytes) returns (r: Decoded<UnconfTx>)
    ensures r == DecUnconfTx(data)
  {
    hide NextUvarint, NextUint8, NextByteSlice, NextFixedByteArray;
    var d := new Deserializer(data);
    var version := d.ReadUint8();
    var height := d.ReadUvarint();
    var hash := d.ReadFixedByteArray(32);
    if |hash| < 32 { return Panics; }
    var n := d.ReadUvarint();
    var balsLen := ToInt(n);
    var bals: map<Bytes, u64> := map[];
    ghost var total := if balsLen < 0 then 0 else balsLen;
    ghost var whole := DecBals(d.State(), total, bals);
    var i := 0;
    while i < balsLen
      invariant fresh(d) && !d.panicked
      invariant 0 <= i <= total
      invariant DecBals(d.State(), total - i, bals) == whole
    {
      var k := d.ReadString();
      if d.panicked { return Panics; }
      var v := d.ReadUvarint();
      bals := bals[k := v];
      i := i + 1;
    }
    return Decoded(UnconfTx(height, hash, bals), d.data, d.error);
  }

  method DeserializePending(data: Bytes) returns (r: Decoded<PendingBals>)
    ensures r == DecPending(data)
  {
    hide NextUvarint, NextUint8, DecUnconfTx, UvarintFrom;
    var d := new Deserializer(data);
    var version := d.ReadUint8();
    var height := d.ReadUvarint();
    var n := d.ReadUvarint();
    var numUnconf := ToInt(n);
    if numUnconf < 0 || numUnconf > MAX_UNCONF { return Panics; }
    var txs: seq<UnconfTx> := [];
    ghost var whole := DecTxs(d.data, numUnconf, txs);
    var i := 0;
    while i < numUnconf
      invariant fresh(d) && d.error == NextUvarint(NextUvarint(NextUint8(Start(data)).1).1).1.error
      invariant 0 <= i <= numUnconf
      invariant DecTxs(d.data, numUnconf - i, txs) == whole
    {
      var utx := DeserializeUnconfTx(d.data);
      if utx.Panics? { return Panics; }
      d.data := utx.rest;
      if utx.error { return Decoded(PendingBals(height, txs), d.data, true); }
      txs := txs + [utx.value];
      i := i + 1;
    }
    return Decoded(PendingBals(height, txs), d.data, d.error);
  }

  // ----- reading what was written -----

  lemma ShareRoundTrip(x: Share, rest: Bytes)
    requires |x.wallet| < TWO63
    ensures DecShare(EncShare(x) + rest) == Decoded(x, rest, false)
  {
    hide EncUvarint, EncString, EncLittleEndian, NextUint8, NextByteSlice, NextUint64;
    var tail2 := EncLittleEndian(x.time, 8) + rest;
    var tail1 := EncLittleEndian(x.diff, 8) + tail2;
    assert EncShare(x) + rest == [VERSION] + (EncString(x.wallet) + tail1);
    Uint8RoundTrip(VERSION, EncString(x.wallet) + tail1);
    StringRoundTrip(x.wallet, tail1);
    Uint64RoundTrip(x.diff, tail2);
    Uint64RoundTrip(x.time, rest);
  }

  lemma AddrInfoRoundTrip(x: AddrInfo, rest: Bytes)
    ensures DecAddrInfo(EncAddrInfo(x) + rest) == Decoded(x, rest, false)
  {
    hide EncUvarint, NextUint8, NextUvarint;
    var tail2 := EncUvarint(x.paid) + rest;
    var tail1 := EncUvarint(x.balancePending) + tail2;
    assert EncAddrInfo(x) + rest == [VERSION] + (EncUvarint(x.balance) + tail1);
    Uint8RoundTrip(VERSION, EncUvarint(x.balance) + tail1);
    UvarintRoundTrip(x.balance, tail1);
    UvarintRoundTrip(x.balancePending, tail2);
    UvarintRoundTrip(x.paid, rest);
  }

  /** Reading n entries and then m entries is reading n + m entries. */
  lemma {:induction false} DecBalsInTwo(d: Reader, n: nat, m: nat, bals: map<Bytes, u64>)
    requires !DecBals(d, n, bals).1.panicked
    ensures DecBals(d, n + m, bals) == DecBals(DecBals(d, n, bals).1, m, DecBals(d, n, bals).0)
    decreases n
  {
    hide NextByteSlice, NextUvarint;
    if n > 0 {
      var (k, d1) := NextByteSlice(d);
      var (v, d2) := NextUvarint(d1);
      DecBalsInTwo(d2, n - 1, m, bals[k := v]);
    }
  }

  lemma DecOneBal(k: Bytes, v: u64, rest: Bytes, bals: map<Bytes, u64>)
    requires |k| < TWO63
    ensures DecBals(Start(EncString(k) + (EncUvarint(v) + rest)), 1, bals) == (bals[k := v], Start(rest))
  {
    StringRoundTrip(k, EncUvarint(v) + rest);
    UvarintRoundTrip(v, rest);
    assert DecBals(Start(rest), 0, bals[k := v]) == (bals[k := v], Start(rest));
  }

  /** The entries written in any order are read back as the map of those keys. */
  lemma {:induction false} DecBalsRoundTrip(bals: map<Bytes, u64>, order: seq<Bytes>, rest: Bytes)
    requires forall k :: k in order ==> k in bals && |k| < TWO63
    ensures DecBals(Start(EncBals(bals, order) + rest), |order|, map[])
         == (map k | k in order :: bals[k], Start(rest))
    decreases |order|
  {
    hide EncUvarint, EncString, NextUvarint, NextByteSlice;
    var d := Start(EncBals(bals, order) + rest);
    if order == [] {
      assert EncBals(bals, order) + rest == rest;
    } else {
      var n := |order| - 1;
      var k := order[n];
      var tail := EncString(k) + (EncUvarint(bals[k]) + rest);
      assert EncBals(bals, order) + rest == EncBals(bals, order[..n]) + tail;
      DecBalsRoundTrip(bals, order[..n], tail);
      DecBalsInTwo(d, n, 1, map[]);
      var before := map j | j in order[..n] :: bals[j];
      DecOneBal(k, bals[k], rest, before);
      assert before[k := bals[k]] == map j | j in order :: bals[j];
    }
  }

  lemma {:induction false} VisitsLength(order: seq<Bytes>, bals: map<Bytes, u64>)
    requires Enumerates(order, bals)
    ensures |order| == |bals|
    decreases |order|
  {
    if order == [] {
      assert bals == map[];
    } else {
      var n := |order| - 1;
      var k := order[n];
      assert k in order && order[..n] + [k] == order;
      VisitsLength(order[..n], bals - {k});
      assert |bals - {k}| == |bals| - 1;
    }
  }

  /** A queue record comes back equal, in whichever order its balances were written, and exactly
      the bytes behind it are left. */
  lemma UnconfTxRoundTrip(x: UnconfTx, order: seq<Bytes>, rest: Bytes)
    requires ValidTx(x) && Enumerates(order, x.bals)
    ensures DecUnconfTx(EncUnconfTx(x, order) + rest) == Decoded(x, rest, false)
  {
    hide EncUvarint, EncBals, DecBals, NextUint8, NextUvarint, NextFixedByteArray;
    var n := |x.bals|;
    VisitsLength(order, x.bals);
    var tail3 := EncBals(x.bals, order) + rest;
    var tail2 := EncUvarint(n) + tail3;
    var tail1 := x.txnBlockHash + tail2;
    assert EncUnconfTx(x, order) + rest == [VERSION] + (EncUvarint(x.unlockHeight) + tail1);
    Uint8RoundTrip(VERSION, EncUvarint(x.unlockHeight) + tail1);
    UvarintRoundTrip(x.unlockHeight, tail1);
    FixedByteArrayRoundTrip(x.txnBlockHash, tail2);
    UvarintRoundTrip(n, tail3);
    DecBalsRoundTrip(x.bals, order, rest);
    assert (map k | k in order :: x.bals[k]) == x.bals;
  }

  lemma {:induction false} DecTxsInTwo(data: Bytes, n: nat, m: nat, txs: seq<UnconfTx>)
    ensures DecTxs(data, n, txs).Decoded? && !DecTxs(data, n, txs).error ==>
              DecTxs(data, n + m, txs) == DecTxs(DecTxs(data, n, txs).rest, m, DecTxs(data, n, txs).value)
    decreases n
  {
    hide DecUnconfTx;
    if n > 0 {
      var tx := DecUnconfTx(data);
      if tx.Decoded? && !tx.error {
        DecTxsInTwo(tx.rest, n - 1, m, txs + [tx.value]);
      }
    }
  }

  lemma {:induction false} DecTxsRoundTrip(txs: seq<UnconfTx>, orders: seq<seq<Bytes>>, rest: Bytes)
    requires VisitsAll(orders, txs) && forall tx :: tx in txs ==> ValidTx(tx)
    ensures DecTxs(EncTxs(txs, orders) + rest, |txs|, []) == Decoded(txs, rest, false)
    decreases |txs|
  {
    hide DecUnconfTx, EncUnconfTx, DecTxs, ValidTx;
    var data := EncTxs(txs, orders) + rest;
    if txs == [] {
      assert data == rest;
      NoTxs(rest);
    } else {
      var n := |txs| - 1;
      var tail := EncUnconfTx(txs[n], orders[n]) + rest;
      assert data == EncTxs(txs[..n], orders[..n]) + tail;
      DecTxsRoundTrip(txs[..n], orders[..n], tail);
      DecTxsInTwo(data, n, 1, []);
      UnconfTxRoundTrip(txs[n], orders[n], rest);
      OneTx(tail, rest, txs[..n], txs[n]);
      assert txs[..n] + [txs[n]] == txs;
    }
  }

  lemma NoTxs(data: Bytes)
    ensures DecTxs(data, 0, []) == Decoded([], data, false)
  {
  }

  lemma OneTx(data: Bytes, rest: Bytes, before: seq<UnconfTx>, tx: UnconfTx)
    requires DecUnconfTx(data) == Decoded(tx, rest, false)
    ensures DecTxs(data, 1, before) == Decoded(before + [tx], rest, false)
  {
    hide DecUnconfTx;
    assert DecTxs(rest, 0, before + [tx]) == Decoded(before + [tx], rest, false);
  }

  /** The whole queue, nested records included, survives storing and loading. */
  lemma PendingRoundTrip(x: PendingBals, orders: seq<seq<Bytes>>, rest: Bytes)
    requires ValidPending(x) && VisitsAll(orders, x.unconfirmedTxs)
    ensures DecPending(EncPending(x, orders) + rest) == Decoded(x, rest, false)
  {
    hide EncUvarint, EncTxs, DecTxs, NextUint8, NextUvarint;
    var n := |x.unconfirmedTxs|;
    var tail2 := EncTxs(x.unconfirmedTxs, orders) + rest;
    var tail1 := EncUvarint(n) + tail2;
    assert EncPending(x, orders) + rest == [VERSION] + (EncUvarint(x.lastHeight) + tail1);
    Uint8RoundTrip(VERSION, EncUvarint(x.lastHeight) + tail1);
    UvarintRoundTrip(x.lastHeight, tail1);
    UvarintRoundTrip(n, tail2);
    DecTxsRoundTrip(x.unconfirmedTxs, orders, rest);
  }

  lemma UnconfTxReadsBack(x: UnconfTx, order: seq<Bytes>, data: Bytes)
    requires ValidTx(x) && Enumerates(order, x.bals) && data == EncUnconfTx(x, order)
    ensures DecUnconfTx(data) == Decoded(x, [], false)
  {
    hide EncUnconfTx, DecUnconfTx;
    UnconfTxRoundTrip(x, order, []);
    assert data + [] == data;
  }

  lemma PendingReadsBack(x: PendingBals, orders: seq<seq<Bytes>>, data: Bytes)
    requires ValidPending(x) && VisitsAll(orders, x.unconfirmedTxs) && data == EncPending(x, orders)
    ensures DecPending(data) == Decoded(x, [], false)
  {
    hide EncPending, DecPending;
    PendingRoundTrip(x, orders, []);
    assert data + [] == data;
  }

  // ----- arbitrary input -----

  lemma {:induction false} DecBalsAdvances(d: Reader, n: nat, bals: map<Bytes, u64>)
    ensures Advances(d, DecBals(d, n, bals).1)
    decreases n
  {
    hide NextUvarint, NextByteSlice, Advances;
    if n == 0 {
      AdvancesReflexively(d);
    } else {
      var (k, d1) := NextByteSlice(d);
      ByteSliceAdvances(d);
      if !d1.panicked {
        var (v, d2) := NextUvarint(d1);
        ReadsAdvance(d1, 0);
        AdvancesTransitively(d, d1, d2);
        DecBalsAdvances(d2, n - 1, bals[k := v]);
        AdvancesTransitively(d, d2, DecBals(d, n, bals).1);
      }
    }
  }

  lemma HashEndsHeader(data: Bytes)
    requires |NextFixedByteArray(NextUvarint(NextUint8(Start(data)).1).1, 32).0| == 32
    ensures var d := NextFixedByteArray(NextUvarint(NextUint8(Start(data)).1).1, 32).1;
            Advances(Start(data), d) && |d.data| + 33 <= |data|
  {
    hide NextUvarint, NextUint8, Advances;
    var d0 := Start(data);
    var d1 := NextUint8(d0).1;
    var d2 := NextUvarint(d1).1;
    ReadsAdvance(d0, 0);
    ReadsAdvance(d1, 0);
    ReadsAdvance(d2, 32);
    AdvancesTransitively(d0, d1, d2);
    AdvancesTransitively(d0, d2, NextFixedByteArray(d2, 32).1);
    FirstByteGone(data);
    SuffixLeft(d1, d2);
  }

  lemma FirstByteGone(data: Bytes)
    ensures data != [] ==> |NextUint8(Start(data)).1.data| + 1 == |data|
    ensures data == [] ==> NextUint8(Start(data)).1.data == []
  {
  }

  /** Whatever the input, a queue record is cut off the front: at least its version and hash are
      gone and what is left is a suffix. */
  lemma UnconfTxConsumesPrefix(data: Bytes)
    ensures var r := DecUnconfTx(data);
            r.Decoded? ==> |r.rest| + 33 <= |data| && r.rest == data[|data| - |r.rest|..]
  {
    hide NextUvarint, NextUint8, NextFixedByteArray, DecBals, Advances;
    var d0, d2 := Start(data), NextUvarint(NextUint8(Start(data)).1).1;
    var (hash, d3) := NextFixedByteArray(d2, 32);
    if |hash| >= 32 {
      HashLength(d2);
      HashEndsHeader(data);
      var (n, d4) := NextUvarint(d3);
      ReadsAdvance(d3, 0);
      var count := ToInt(n);
      var d5 := DecBals(d4, if count < 0 then 0 else count, map[]).1;
      DecBalsAdvances(d4, if count < 0 then 0 else count, map[]);
      AdvancesTransitively(d3, d4, d5);
      AdvancesTransitively(d0, d3, d5);
      SuffixLeft(d3, d5);
      SuffixLeft(d0, d5);
    }
  }

  lemma SuffixLeft(a: Reader, b: Reader)
    requires Advances(a, b)
    ensures |b.data| <= |a.data| && b.data == a.data[|a.data| - |b.data|..]
  {
  }

  lemma HashLength(d: Reader)
    ensures |NextFixedByteArray(d, 32).0| <= 32
  {
  }
}
