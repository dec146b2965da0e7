/** The 112 bytes a miner hashes (pow/block_miner.go): work hash, timestamp, nonce, extra nonce
    (job id, pool nonce, padding) and public key. Setters write the array in place. */
module BlockMiner {
  import opened GoTypes
  import opened Target

  const LENGTH := 112

  type Hash = h: Bytes | |h| == 32 witness seq(32, _ => 0)
  type Id = i: Bytes | |i| == 16 witness seq(16, _ => 0)
  type Tag = t: Bytes | |t| == 8 witness seq(8, _ => 0)
  type Block = b: Bytes | |b| == LENGTH witness seq(LENGTH, _ => 0)

  const NO_ID: Id := Zeros(16)
  const NO_HASH: Hash := Zeros(32)
  const EMPTY_BLOCK: Block := Zeros(LENGTH)

  /** binary.BigEndian: the low k bytes of n, most significant first. */
  function BigEndian(n: nat, k: nat): (s: Bytes)
    ensures |s| == k
  {
    if k == 0 then [] else BigEndian(n / 256, k - 1) + [n % 256]
  }

  // ----- getters -----

  function Workhash(b: Block): Hash { b[..32] }
  function Timestamp(b: Block): u64 { Wrap64(Value(b[32..40])) }
  function Nonce(b: Block): u64 { Wrap64(Value(b[40..48])) }
  function ExtraNonce(b: Block): Hash { b[48..80] }
  function PublicKey(b: Block): Hash { b[80..112] }
  function JobId(b: Block): Id { b[48..64] }
  function PoolNonce(b: Block): Tag { b[64..72] }
  function Blob(b: Block): Bytes { Workhash(b) + ExtraNonce(b) + PublicKey(b) }

  /** NewBlockMiner at time now (milliseconds). */
  function Fresh(workhash: Hash, extraNonce: Hash, publicKey: Hash, now: u64): Block {
    workhash + BigEndian(now, 8) + BigEndian(0, 8) + extraNonce + publicKey
  }

  function FromBlob(blob: Bytes, now: u64): Option<Block> {
    if |blob| != 96 then None else Some(Fresh(blob[0..32], blob[32..64], blob[64..96], now))
  }

  // ----- setters -----

  function WithTimestamp(b: Block, t: u64): Block { b[..32] + BigEndian(t, 8) + b[40..] }
  function WithNonce(b: Block, n: u64): Block { b[..40] + BigEndian(n, 8) + b[48..] }
  function WithExtraNonce(b: Block, x: Hash): Block { b[..48] + x + b[80..] }
  function WithJobId(b: Block, id: Id): Block { b[..48] + id + b[64..] }
  function WithPoolNonce(b: Block, p: Tag): Block { b[..64] + p + b[72..] }

  /** Writing `part` over b from position `at`. */
  method Overwrite(b: array<byte>, at: nat, part: Bytes)
    requires at + |part| <= b.Length
    modifies b
    ensures b[..] == old(b[..at]) + part + old(b[at + |part|..])
  {
    for i := 0 to |part|
      invariant b[..] == old(b[..at]) + part[..i] + old(b[at + i..])
    {
      b[at + i] := part[i];
    }
  }

  method SetTimestamp(b: array<byte>, t: u64)
    requires b.Length == LENGTH
    modifies b
    ensures b[..] == WithTimestamp(old(b[..]), t)
  {
    Overwrite(b, 32, BigEndian(t, 8));
  }

  method SetNonce(b: array<byte>, n: u64)
    requires b.Length == LENGTH
    modifies b
    ensures b[..] == WithNonce(old(b[..]), n)
  {
    Overwrite(b, 40, BigEndian(n, 8));
  }

  method SetExtraNonce(b: array<byte>, x: Hash)
    requires b.Length == LENGTH
    modifies b
    ensures b[..] == WithExtraNonce(old(b[..]), x)
  {
    Overwrite(b, 48, x);
  }

  method SetJobID(b: array<byte>, id: Id)
    requires b.Length == LENGTH
    modifies b
    ensures b[..] == WithJobId(old(b[..]), id)
  {
    Overwrite(b, 48, id);
  }

  method SetPoolNonce(b: array<byte>, p: Tag)
    requires b.Length == LENGTH
    modifies b
    ensures b[..] == WithPoolNonce(old(b[..]), p)
  {
    Overwrite(b, 64, p);
  }

  // ----- layout laws -----

  lemma {:induction false} BigEndianValue(n: nat, k: nat)
    requires n < Pow256(k)
    ensures Value(BigEndian(n, k)) == n
  {
    if k > 0 {
      BigEndianValue(n / 256, k - 1);
      assert BigEndian(n, k)[..k - 1] == BigEndian(n / 256, k - 1);
    }
  }

  lemma {:induction false} ValueBigEndian(s: Bytes)
    ensures BigEndian(Value(s), |s|) == s
  {
    if s != [] {
      ValueBigEndian(s[..|s| - 1]);
    }
  }

  lemma EightBytes(n: u64, s: Bytes)
    requires |s| == 8
    ensures Wrap64(Value(BigEndian(n, 8))) == n
    ensures BigEndian(Wrap64(Value(s)), 8) == s
  {
    hide Value, BigEndian;
    EightBytesBound();
    BigEndianValue(n, 8);
    ValueBigEndian(s);
    ValueBound(s);
    WrapInRange(n);
    WrapInRange(Value(s));
  }

  lemma EightBytesBound()
    ensures Pow256(8) == TWO64
  {
    assert Pow256(4) == TWO32;
  }

  /** A setter changes what its getter reads to the given value and nothing else. */
  lemma NonceLaws(b: Block, n: u64)
    ensures var c := WithNonce(b, n);
            && Nonce(c) == n
            && Workhash(c) == Workhash(b) && Timestamp(c) == Timestamp(b)
            && ExtraNonce(c) == ExtraNonce(b) && PublicKey(c) == PublicKey(b)
            && JobId(c) == JobId(b) && PoolNonce(c) == PoolNonce(b)
  {
    hide Value, BigEndian, Wrap64;
    EightBytes(n, b[40..48]);
    assert WithNonce(b, n)[40..48] == BigEndian(n, 8);
    assert WithNonce(b, n)[32..40] == b[32..40];
  }

  lemma TimestampLaws(b: Block, t: u64)
    ensures var c := WithTimestamp(b, t);
            && Timestamp(c) == t
            && Workhash(c) == Workhash(b) && Nonce(c) == Nonce(b)
            && ExtraNonce(c) == ExtraNonce(b) && PublicKey(c) == PublicKey(b)
  {
    hide Value, BigEndian, Wrap64;
    EightBytes(t, b[32..40]);
    assert WithTimestamp(b, t)[32..40] == BigEndian(t, 8);
    assert WithTimestamp(b, t)[40..48] == b[40..48];
  }

  lemma ExtraNonceLaws(b: Block, x: Hash)
    ensures var c := WithExtraNonce(b, x);
            && ExtraNonce(c) == x && JobId(c) == x[..16] && PoolNonce(c) == x[16..24]
            && Workhash(c) == Workhash(b) && Timestamp(c) == Timestamp(b)
            && Nonce(c) == Nonce(b) && PublicKey(c) == PublicKey(b)
  {
    hide Value, Wrap64;
    assert WithExtraNonce(b, x)[32..40] == b[32..40];
    assert WithExtraNonce(b, x)[40..48] == b[40..48];
  }

  lemma JobIdLaws(b: Block, id: Id)
    ensures var c := WithJobId(b, id);
            && JobId(c) == id && PoolNonce(c) == PoolNonce(b)
            && ExtraNonce(c) == id + ExtraNonce(b)[16..]
            && Workhash(c) == Workhash(b) && Timestamp(c) == Timestamp(b)
            && Nonce(c) == Nonce(b) && PublicKey(c) == PublicKey(b)
  {
    hide Value, Wrap64;
    assert WithJobId(b, id)[32..40] == b[32..40];
    assert WithJobId(b, id)[40..48] == b[40..48];
  }

  /** The five parts in order. */
  function Assemble(workhash: Hash, timestamp: u64, nonce: u64, extraNonce: Hash, publicKey: Hash): Block {
    workhash + BigEndian(timestamp, 8) + BigEndian(nonce, 8) + extraNonce + publicKey
  }

  /** A block is exactly its parts. */
  lemma BlockIsItsParts(b: Block)
    ensures b == Assemble(Workhash(b), Timestamp(b), Nonce(b), ExtraNonce(b), PublicKey(b))
  {
    hide Value, BigEndian, Wrap64;
    EightBytes(0, b[32..40]);
    EightBytes(0, b[40..48]);
    assert b == b[..32] + b[32..40] + b[40..48] + b[48..80] + b[80..112];
  }

  lemma PartsOfAssembled(workhash: Hash, timestamp: u64, nonce: u64, extraNonce: Hash, publicKey: Hash)
    ensures var b := Assemble(workhash, timestamp, nonce, extraNonce, publicKey);
            && Workhash(b) == workhash && Timestamp(b) == timestamp && Nonce(b) == nonce
            && ExtraNonce(b) == extraNonce && PublicKey(b) == publicKey
  {
    hide Value, BigEndian, Wrap64;
    var b := Assemble(workhash, timestamp, nonce, extraNonce, publicKey);
    EightBytes(timestamp, b[32..40]);
    EightBytes(nonce, b[40..48]);
    assert b[32..40] == BigEndian(timestamp, 8) && b[40..48] == BigEndian(nonce, 8);
  }

  /** A block goes through its 96-byte blob and back, once its timestamp is put back, if and only
      if its nonce is 0. */
  lemma BlobRoundTrip(b: Block, now: u64)
    ensures FromBlob(Blob(b), now).Some?
    ensures WithTimestamp(FromBlob(Blob(b), now).value, Timestamp(b)) == b <==> Nonce(b) == 0
  {
    hide Value, BigEndian, Wrap64, Assemble;
    var blob := Blob(b);
    assert blob[0..32] == Workhash(b) && blob[32..64] == ExtraNonce(b) && blob[64..96] == PublicKey(b);
    var c := FromBlob(blob, now).value;
    assert c == Assemble(Workhash(b), now, 0, ExtraNonce(b), PublicKey(b)) by { FreshIsAssembled(Workhash(b), ExtraNonce(b), PublicKey(b), now); }
    PartsOfAssembled(Workhash(b), now, 0, ExtraNonce(b), PublicKey(b));
    TimestampLaws(c, Timestamp(b));
    BlockIsItsParts(WithTimestamp(c, Timestamp(b)));
    BlockIsItsParts(b);
  }

  lemma FreshIsAssembled(workhash: Hash, extraNonce: Hash, publicKey: Hash, now: u64)
    ensures Fresh(workhash, extraNonce, publicKey, now) == Assemble(workhash, now, 0, extraNonce, publicKey)
  {
  }
}
