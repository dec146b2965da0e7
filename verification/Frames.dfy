/** The encrypted stream between slaves and master (slave/client.go, cmd/master/handler.go): each
    message is sent as an encrypted 16-bit length followed by the encrypted message, and the
    packets carried inside. */
module Frames {
  import opened GoTypes
  import opened Codec

  const OVERHEAD := 40
  const LENGTH_LIMIT := 0x1_0000

  /** XChaCha20-Poly1305 as an abstract pair: enc takes the message and a random nonce. */
  datatype Cipher = Cipher(enc: (Bytes, Bytes) -> Bytes, dec: Bytes -> Option<Bytes>)

  ghost predicate ValidCipher(c: Cipher) {
    && (forall m, n :: c.dec(c.enc(m, n)) == Some(m) && |c.enc(m, n)| == |m| + OVERHEAD)
    && (forall x :: c.dec(x).Some? ==> |c.dec(x).value| + OVERHEAD == |x|)
  }

  /** One call of the sender: a message and the two nonces drawn for it. */
  datatype Sent = Sent(msg: Bytes, lengthNonce: Bytes, nonce: Bytes)

  function Frame(c: Cipher, s: Sent): Bytes {
    c.enc(EncLittleEndian(|s.msg| % LENGTH_LIMIT, 2), s.lengthNonce) + c.enc(s.msg, s.nonce)
  }

  function Stream(c: Cipher, sents: seq<Sent>): Bytes {
    if sents == [] then [] else Frame(c, sents[0]) + Stream(c, sents[1..])
  }

  function Messages(sents: seq<Sent>): seq<Bytes> {
    if sents == [] then [] else [sents[0].msg] + Messages(sents[1..])
  }

  function LengthOf(b: Bytes): nat
    requires |b| >= 2
  {
    var low: int, high: int := b[0], b[1];
    low + 256 * high
  }

  /** One turn of the read loop; None when it ends (short read or failed decryption). */
  function ReadFrame(c: Cipher, stream: Bytes): Option<(Bytes, Bytes)> {
    if |stream| < 2 + OVERHEAD then None
    else
      match c.dec(stream[..2 + OVERHEAD])
      case None => None
      case Some(lenBuf) =>
        if |lenBuf| < 2 then None
        else
          var end := 2 + OVERHEAD + LengthOf(lenBuf) + OVERHEAD;
          if |stream| < end then None
          else
            match c.dec(stream[2 + OVERHEAD..end])
            case None => None
            case Some(buf) => Some((buf, stream[end..]))
  }

  function Parse(c: Cipher, stream: Bytes): seq<Bytes>
    decreases |stream|
  {
    match ReadFrame(c, stream)
    case None => []
    case Some((msg, rest)) => [msg] + Parse(c, rest)
  }

  /** A TCP connection's outgoing bytes. */
  class Conn {
    var written: Bytes

    constructor ()
      ensures written == []
    {
      written := [];
    }

    method SendToConn(c: Cipher, data: Bytes, lengthNonce: Bytes, nonce: Bytes)
      modifies this
      ensures written == old(written) + Frame(c, Sent(data, lengthNonce, nonce))
    {
      var dataLenBin := EncLittleEndian(|data| % LENGTH_LIMIT, 2);
      written := written + c.enc(dataLenBin, lengthNonce);
      written := written + c.enc(data, nonce);
    }
  }

  /** HandleSlave: the messages handed to OnMessage before the connection ends. */
  method ReadLoop(c: Cipher, stream: Bytes) returns (msgs: seq<Bytes>)
    ensures msgs == Parse(c, stream)
  {
    msgs := [];
    var left := stream;
    while |left| >= 2 + OVERHEAD
      invariant msgs + Parse(c, left) == Parse(c, stream)
      decreases |left|
    {
      var lenBuf := c.dec(left[..2 + OVERHEAD]);
      if lenBuf.None? || |lenBuf.value| < 2 { return; }
      var end := 2 + OVERHEAD + LengthOf(lenBuf.value) + OVERHEAD;
      if |left| < end { return; }
      var buf := c.dec(left[2 + OVERHEAD..end]);
      if buf.None? { return; }
      assert ReadFrame(c, left) == Some((buf.value, left[end..]));
      msgs := msgs + [buf.value];
      left := left[end..];
    }
  }

  // ----- what is sent is read -----

  lemma LengthField(n: nat)
    requires n < LENGTH_LIMIT
    ensures |EncLittleEndian(n, 2)| == 2 && LengthOf(EncLittleEndian(n, 2)) == n
  {
    assert EncLittleEndian(n, 2) == [n % 256] + EncLittleEndian(n / 256, 1);
    assert EncLittleEndian(n / 256, 1) == [n / 256 % 256] + EncLittleEndian(n / 256 / 256, 0);
  }

  /** The reader of a stream that starts with (part of) a frame: after the length it knows exactly
      how many bytes the message takes. */
  lemma ReadsFrame(c: Cipher, s: Sent, stream: Bytes)
    requires ValidCipher(c) && |s.msg| < LENGTH_LIMIT
    requires var f := Frame(c, s);
             if |stream| < |f| then stream == f[..|stream|] else stream[..|f|] == f
    ensures |Frame(c, s)| == 2 + 40 + |s.msg| + 40
    ensures ReadFrame(c, stream)
         == if |stream| < |Frame(c, s)| then None else Some((s.msg, stream[|Frame(c, s)|..]))
  {
    hide EncLittleEndian, LengthOf, ValidCipher;
    var lenBuf := EncLittleEndian(|s.msg|, 2);
    var head, body := c.enc(lenBuf, s.lengthNonce), c.enc(s.msg, s.nonce);
    LengthField(|s.msg|);
    CipherInverse(c, lenBuf, s.lengthNonce);
    CipherInverse(c, s.msg, s.nonce);
    if |stream| >= 2 + OVERHEAD {
      assert stream[..2 + OVERHEAD] == head;
      if |stream| >= |head + body| {
        assert stream[2 + OVERHEAD..|head + body|] == body;
      }
    }
  }

  lemma CipherInverse(c: Cipher, m: Bytes, nonce: Bytes)
    requires ValidCipher(c)
    ensures c.dec(c.enc(m, nonce)) == Some(m) && |c.enc(m, nonce)| == |m| + OVERHEAD
  {
  }

  /** Messages shorter than 65536 bytes come out in the order they went in. */
  lemma {:induction false} StreamRoundTrip(c: Cipher, sents: seq<Sent>)
    requires ValidCipher(c) && forall s :: s in sents ==> |s.msg| < LENGTH_LIMIT
    ensures Parse(c, Stream(c, sents)) == Messages(sents)
    decreases |sents|
  {
    hide Frame, ReadFrame, ValidCipher;
    if sents == [] {
      EmptyStream(c);
    } else {
      assert sents[0] in sents;
      var f, rest := Frame(c, sents[0]), Stream(c, sents[1..]);
      assert (f + rest)[..|f|] == f && (f + rest)[|f|..] == rest;
      ReadsFrame(c, sents[0], f + rest);
      StreamRoundTrip(c, sents[1..]);
    }
  }

  lemma EmptyStream(c: Cipher)
    ensures ReadFrame(c, []) == None
  {
  }

  /** Messages whose frames lie wholly within the first k bytes. */
  function WholeWithin(c: Cipher, sents: seq<Sent>, k: int): seq<Bytes> {
    if sents == [] || k < |Frame(c, sents[0])| then []
    else [sents[0].msg] + WholeWithin(c, sents[1..], k - |Frame(c, sents[0])|)
  }

  /** However the connection is cut, exactly the completely received messages are handed on. */
  lemma {:induction false} CutStream(c: Cipher, sents: seq<Sent>, k: nat)
    requires ValidCipher(c) && forall s :: s in sents ==> |s.msg| < LENGTH_LIMIT
    requires k <= |Stream(c, sents)|
    ensures Parse(c, Stream(c, sents)[..k]) == WholeWithin(c, sents, k)
    ensures WholeWithin(c, sents, k) <= Messages(sents)
    decreases |sents|
  {
    hide Frame, ReadFrame, ValidCipher;
    if sents == [] {
      EmptyStream(c);
    } else {
      assert sents[0] in sents;
      var f, rest := Frame(c, sents[0]), Stream(c, sents[1..]);
      var cut := (f + rest)[..k];
      if k < |f| {
        assert cut == f[..k];
        ReadsFrame(c, sents[0], cut);
      } else {
        assert cut[..|f|] == f && cut[|f|..] == rest[..k - |f|];
        ReadsFrame(c, sents[0], cut);
        CutStream(c, sents[1..], k - |f|);
      }
    }
  }

  /** The length field has 16 bits: any sequence of messages comes through if and only if each is
      shorter than 65536 bytes. */
  lemma {:induction false} FramedExactly(c: Cipher, sents: seq<Sent>)
    requires ValidCipher(c)
    ensures Parse(c, Stream(c, sents)) == Messages(sents) <==> forall s :: s in sents ==> |s.msg| < LENGTH_LIMIT
    decreases |sents|
  {
    hide Frame, ReadFrame, ValidCipher;
    if sents == [] {
      EmptyStream(c);
    } else {
      var s, rest := sents[0], Stream(c, sents[1..]);
      var f := Frame(c, s);
      assert s in sents && (f + rest)[..|f|] == f && (f + rest)[|f|..] == rest;
      assert forall x :: x in sents <==> x == s || x in sents[1..];
      if |s.msg| < LENGTH_LIMIT {
        ReadsFrame(c, s, f + rest);
        FramedExactly(c, sents[1..]);
        assert Parse(c, f + rest)[1..] == Parse(c, rest) && Messages(sents)[1..] == Messages(sents[1..]);
      } else {
        LongMessageLost(c, s, rest);
        assert Messages(sents)[0] == s.msg;
        assert Parse(c, f + rest) == [] || Parse(c, f + rest)[0] != s.msg;
      }
    }
  }

  /** What is read first after a message that is too long is something else. */
  lemma LongMessageLost(c: Cipher, s: Sent, rest: Bytes)
    requires ValidCipher(c) && |s.msg| >= LENGTH_LIMIT
    ensures var r := ReadFrame(c, Frame(c, s) + rest); r.Some? ==> r.value.0 != s.msg
  {
    hide EncLittleEndian, LengthOf;
    var n := |s.msg| % LENGTH_LIMIT;
    var head := c.enc(EncLittleEndian(n, 2), s.lengthNonce);
    LengthField(n);
    assert (Frame(c, s) + rest)[..2 + OVERHEAD] == head;
  }

  // ----- the packets -----

  datatype Packet =
    | SharesFound(count: u32, wallet: Bytes, diff: u64)
    | BlockFound(hash: Bytes)
    | Stats(conns: u32)
    | Ban(ip: Bytes, ends: u64)
    | Malformed | Unknown | Crashed

  function Encode(p: Packet): Bytes
    requires p.SharesFound? || p.BlockFound? || p.Stats? || p.Ban?
  {
    match p
    case SharesFound(count, wallet, diff) => [0] + EncUvarint(count) + EncString(wallet) + EncUvarint(diff)
    case BlockFound(hash) => [1] + hash
    case Stats(conns) => [2] + EncUvarint(conns)
    case Ban(ip, ends) => [4] + EncString(ip) + EncLittleEndian(ends, 8)
  }

  /** OnMessage on the master. A ban packet is answered with whatever could be read of it. */
  function Decode(msg: Bytes): Packet {
    var (kind, d) := NextUint8(Start(msg));
    if kind == 0 then
      var (count, d1) := NextUvarint(d);
      var (wallet, d2) := NextByteSlice(d1);
      if d2.panicked then Crashed
      else
        var (diff, d3) := NextUvarint(d2);
        if d3.error then Malformed else SharesFound(Wrap32(count), wallet, diff)
    else if kind == 1 then
      var (hash, d1) := NextFixedByteArray(d, 32);
      if d1.error then Malformed else BlockFound(hash)
    else if kind == 2 then
      var (conns, d1) := NextUvarint(d);
      if d1.error then Malformed else Stats(Wrap32(conns))
    else if kind == 4 then
      var (ip, d1) := NextByteSlice(d);
      if d1.panicked then Crashed
      else
        var (ends, _) := NextUint64(d1);
        Ban(ip, ends)
    else Unknown
  }

  method OnMessage(msg: Bytes) returns (p: Packet)
    ensures p == Decode(msg)
  {
    hide NextUvarint, NextByteSlice, NextUint64, NextFixedByteArray, Wrap32;
    var d := new Deserializer(msg);
    var kind := d.ReadUint8();
    if kind == 0 {
      var numShares := d.ReadUvarint();
      var wallet := d.ReadString();
      if d.panicked { return Crashed; }
      var diff := d.ReadUvarint();
      if d.error { return Malformed; }
      return SharesFound(Wrap32(numShares), wallet, diff);
    } else if kind == 1 {
      var hash := d.ReadFixedByteArray(32);
      if d.error { return Malformed; }
      return BlockFound(hash);
    } else if kind == 2 {
      var conns := d.ReadUvarint();
      if d.error { return Malformed; }
      return Stats(Wrap32(conns));
    } else if kind == 4 {
      var ip := d.ReadString();
      if d.panicked { return Crashed; }
      var ends := d.ReadUint64();
      return Ban(ip, ends);
    }
    return Unknown;
  }

  method SendCachedShare(count: u32, wallet: Bytes, diff: u64) returns (data: Bytes)
    ensures data == Encode(SharesFound(count, wallet, diff))
  {
    hide EncUvarint, EncString;
    var s := new Serializer([0]);
    s.AddUvarint(count);
    s.AddString(wallet);
    s.AddUvarint(diff);
    return s.data;
  }

  /** What Go's types allow in a packet. */
  predicate Sendable(p: Packet) {
    match p
    case SharesFound(_, wallet, _) => |wallet| < TWO63
    case BlockFound(hash) => |hash| == 32
    case Stats(_) => true
    case Ban(ip, _) => |ip| < TWO63
    case _ => false
  }

  /** Every packet a slave sends is understood by the master as what it was. */
  lemma PacketRoundTrip(p: Packet)
    requires Sendable(p)
    ensures Decode(Encode(p)) == p
  {
    match p
    case SharesFound(count, wallet, diff) => SharesRoundTrip(count, wallet, diff);
    case BlockFound(hash) => HashRoundTrip(hash);
    case Stats(conns) => StatsRoundTrip(conns);
    case Ban(ip, ends) => BanRoundTrip(ip, ends);
  }

  lemma SharesRoundTrip(count: u32, wallet: Bytes, diff: u64)
    requires |wallet| < TWO63
    ensures Decode(Encode(SharesFound(count, wallet, diff))) == SharesFound(count, wallet, diff)
  {
    hide NextUint8, NextUvarint, NextByteSlice, NextUint64, NextFixedByteArray, EncUvarint, EncString;
    var tail := EncString(wallet) + EncUvarint(diff);
    assert Encode(SharesFound(count, wallet, diff)) == [0] + (EncUvarint(count) + tail);
    Uint8RoundTrip(0, EncUvarint(count) + tail);
    UvarintRoundTrip(count, tail);
    StringRoundTrip(wallet, EncUvarint(diff));
    assert EncUvarint(diff) + [] == EncUvarint(diff);
    UvarintRoundTrip(diff, []);
  }

  lemma HashRoundTrip(hash: Bytes)
    requires |hash| == 32
    ensures Decode(Encode(BlockFound(hash))) == BlockFound(hash)
  {
    hide NextUint8, NextUvarint, NextByteSlice, NextUint64, NextFixedByteArray;
    Uint8RoundTrip(1, hash);
    assert hash + [] == hash;
    FixedByteArrayRoundTrip(hash, []);
  }

  lemma StatsRoundTrip(conns: u32)
    ensures Decode(Encode(Stats(conns))) == Stats(conns)
  {
    hide NextUint8, NextUvarint, NextByteSlice, NextUint64, NextFixedByteArray, EncUvarint;
    Uint8RoundTrip(2, EncUvarint(conns));
    assert EncUvarint(conns) + [] == EncUvarint(conns);
    UvarintRoundTrip(conns, []);
  }

  lemma BanRoundTrip(ip: Bytes, ends: u64)
    requires |ip| < TWO63
    ensures Decode(Encode(Ban(ip, ends))) == Ban(ip, ends)
  {
    hide NextUint8, NextUvarint, NextByteSlice, NextUint64, NextFixedByteArray, EncString, EncLittleEndian;
    var tail := EncLittleEndian(ends, 8);
    assert Encode(Ban(ip, ends)) == [4] + (EncString(ip) + tail);
    Uint8RoundTrip(4, EncString(ip) + tail);
    StringRoundTrip(ip, tail);
    assert tail + [] == tail;
    Uint64RoundTrip(ends, []);
  }
}
