/** The binary codec (serializer/): base-128 varints, little-endian integers, length-prefixed
    byte strings, and a reader whose first error sticks. */
module Codec {
  import opened GoTypes

  // ----- writing -----

  /** binary.AppendUvarint: seven bits a byte, low group first, top bit set on all but the last. */
  function EncUvarint(n: u64): (enc: Bytes)
    ensures |enc| >= 1
  {
    if n < 128 then [n] else [n % 128 + 128] + EncUvarint(n / 128)
  }

  /** The low k bytes of n, least significant first. */
  function EncLittleEndian(n: nat, k: nat): (enc: Bytes)
    ensures |enc| == k
  {
    if k == 0 then [] else [n % 256] + EncLittleEndian(n / 256, k - 1)
  }

  function EncString(s: Bytes): Bytes {
    EncUvarint(Wrap64(|s|)) + s
  }

  class Serializer {
    var data: Bytes

    constructor (initial: Bytes)
      ensures data == initial
    {
      data := initial;
    }

    method AddUint8(n: byte)
      modifies this
      ensures data == old(data) + [n]
    {
      data := data + [n];
    }

    method AddUint64(n: u64)
      modifies this
      ensures data == old(data) + EncLittleEndian(n, 8)
    {
      var rest: nat := n;
      ghost var left: nat := 8;
      for i := 0 to 8
        invariant left == 8 - i
        invariant data + EncLittleEndian(rest, left) == old(data) + EncLittleEndian(n, 8)
      {
        assert data + EncLittleEndian(rest, left)
            == (data + [rest % 256]) + EncLittleEndian(rest / 256, left - 1);
        data := data + [rest % 256];
        rest, left := rest / 256, left - 1;
      }
      assert EncLittleEndian(rest, 0) == [];
    }

    method AddUvarint(n: u64)
      modifies this
      ensures data == old(data) + EncUvarint(n)
    {
      var x := n;
      while x >= 128
        invariant 0 <= x < TWO64
        invariant data + EncUvarint(x) == old(data) + EncUvarint(n)
      {
        assert data + EncUvarint(x) == (data + [x % 128 + 128]) + EncUvarint(x / 128);
        data := data + [x % 128 + 128];
        x := x / 128;
      }
      data := data + [x];
    }

    /** The source panics unless the length is as announced. */
    method AddFixedByteArray(a: Bytes, length: nat)
      requires |a| == length
      modifies this
      ensures data == old(data) + a
    {
      data := data + a;
    }

    method AddByteSlice(a: Bytes)
      modifies this
      ensures data == old(data) + EncString(a)
    {
      AddUvarint(Wrap64(|a|));
      data := data + a;
    }

    method AddString(a: Bytes)
      modifies this
      ensures data == old(data) + EncString(a)
    {
      AddByteSlice(a);
    }
  }

  // ----- reading -----

  /** A reader: what is left, whether a read has failed, and whether the program has panicked. */
  datatype Reader = Reader(data: Bytes, error: bool, panicked: bool)

  function Start(data: Bytes): Reader {
    Reader(data, false, false)
  }

  function Fail(d: Reader): Reader {
    d.(error := true)
  }

  function Pow128(i: nat): (p: nat)
    ensures p >= 1
  {
    if i == 0 then 1 else 128 * Pow128(i - 1)
  }

  /** binary.Uvarint from byte i on, x being the value of the groups before it. The second
      result is the number of bytes used, 0 when the buffer ends too early, negative when the
      value does not fit 64 bits. */
  function UvarintFrom(buf: Bytes, i: nat, x: u64): (r: (u64, int))
    requires i <= |buf|
    ensures r.1 <= |buf|
    ensures r.1 <= 0 ==> r.0 == 0
    decreases |buf| - i
  {
    if i == |buf| then (0, 0)
    else if i == 10 then (0, -(i + 1))
    else if buf[i] < 128 then
      if i == 9 && buf[i] > 1 then (0, -(i + 1)) else (Wrap64(x + buf[i] * Pow128(i)), i + 1)
    else UvarintFrom(buf, i + 1, Wrap64(x + (buf[i] - 128) * Pow128(i)))
  }

  function NextUint8(d: Reader): (byte, Reader) {
    if d.error then (0, d)
    else if |d.data| < 1 then (0, Fail(d))
    else (d.data[0], d.(data := d.data[1..]))
  }

  function LittleEndianValue(s: Bytes): nat {
    if s == [] then 0 else s[0] + 256 * LittleEndianValue(s[1..])
  }

  function NextUint64(d: Reader): (u64, Reader) {
    if d.error then (0, d)
    else if |d.data| < 8 then (0, Fail(d))
    else (Wrap64(LittleEndianValue(d.data[..8])), d.(data := d.data[8..]))
  }

  function NextUvarint(d: Reader): (u64, Reader) {
    if d.error then (0, d)
    else if |d.data| < 1 then (0, Fail(d))
    else
      var (n, used) := UvarintFrom(d.data, 0, 0);
      if used < 0 then (0, Fail(d)) else (n, d.(data := d.data[used..]))
  }

  function NextFixedByteArray(d: Reader, length: nat): (Bytes, Reader) {
    if d.error then ([], d)
    else if |d.data| < length then ([], Fail(d))
    else (d.data[..length], d.(data := d.data[length..]))
  }

  /** The announced length is compared as a signed int, so a length of 2^63 or more passes the
      comparison and the slice expression then panics. */
  function NextByteSlice(d: Reader): (Bytes, Reader) {
    if d.error then ([], d)
    else if |d.data| < 1 then ([], Fail(d))
    else
      var (length, used) := UvarintFrom(d.data, 0, 0);
      if used < 0 then ([], Fail(d))
      else
        var rest := d.data[used..];
        if |rest| < ToInt(length) then ([], Fail(d.(data := rest)))
        else if length > |rest| then ([], d.(data := rest, panicked := true))
        else (rest[..length], d.(data := rest[length..]))
  }

  class Deserializer {
    var data: Bytes
    var error: bool
    var panicked: bool

    ghost function State(): Reader
      reads this
    {
      Reader(data, error, panicked)
    }

    constructor (data: Bytes)
      ensures State() == Start(data)
    {
      this.data, error, panicked := data, false, false;
    }

    method ReadUint8() returns (b: byte)
      requires !panicked
      modifies this
      ensures (b, State()) == NextUint8(old(State()))
      ensures !panicked
    {
      if error { return 0; }
      if |data| < 1 {
        error := true;
        return 0;
      }
      b := data[0];
      data := data[1..];
    }

    method ReadUint64() returns (n: u64)
      requires !panicked
      modifies this
      ensures (n, State()) == NextUint64(old(State()))
      ensures !panicked
    {
      if error { return 0; }
      if |data| < 8 {
        error := true;
        return 0;
      }
      var b := data[..8];
      data := data[8..];
      n := Wrap64(LittleEndianValue(b));
    }

    method ReadUvarint() returns (n: u64)
      requires !panicked
      modifies this
      ensures (n, State()) == NextUvarint(old(State()))
      ensures !panicked
    {
      if error { return 0; }
      if |data| < 1 {
        error := true;
        return 0;
      }
      var (d, x) := UvarintFrom(data, 0, 0);
      if x < 0 {
        error := true;
        return 0;
      }
      data := data[x..];
      n := d;
    }

    method ReadFixedByteArray(length: nat) returns (b: Bytes)
      requires !panicked
      modifies this
      ensures (b, State()) == NextFixedByteArray(old(State()), length)
      ensures !panicked
    {
      if error { return []; }
      if |data| < length {
        error := true;
        return [];
      }
      b := data[..length];
      data := data[length..];
    }

    method ReadByteSlice() returns (b: Bytes)
      requires !panicked
      modifies this
      ensures (b, State()) == NextByteSlice(old(State()))
    {
      if error { return []; }
      if |data| < 1 {
        error := true;
        return [];
      }
      var (length, read) := UvarintFrom(data, 0, 0);
      if read < 0 {
        error := true;
        return [];
      }
      data := data[read..];
      if |data| < ToInt(length) {
        error := true;
        return [];
      }
      if length > |data| {
        panicked := true;
        return [];
      }
      b := data[..length];
      data := data[length..];
    }

    method ReadString() returns (b: Bytes)
      requires !panicked
      modifies this
      ensures (b, State()) == NextByteSlice(old(State()))
    {
      b := ReadByteSlice();
    }
  }

  // ----- reading what was written -----

  lemma {:induction false} Pow128Grows(i: nat, j: nat)
    requires i <= j
    ensures Pow128(i) <= Pow128(j)
  {
    if i < j { Pow128Grows(i, j - 1); }
  }

  lemma Pow128Of9()
    ensures Pow128(9) == TWO63
  {
    assert Pow128(3) == 0x20_0000;
    assert Pow128(6) == 0x400_0000_0000;
  }

  /** One group: the low seven bits now, the rest shifted by one more group. */
  lemma GroupSplit(m: nat, p: nat)
    ensures m * p == (m % 128) * p + (m / 128) * (128 * p)
  {
    assert m == m % 128 + 128 * (m / 128);
    assert (128 * (m / 128)) * p == (m / 128) * (128 * p);
  }

  /** A group that is needed fits, and after the ninth only the top bit is left. */
  lemma GroupInRange(m: nat, i: nat)
    requires m > 0 && m * Pow128(i) < TWO64
    ensures i <= 9 && (i == 9 ==> m <= 1)
  {
    Pow128Of9();
    assert m * Pow128(i) >= Pow128(i);
    assert Pow128(10) == 128 * TWO63;
    if i > 9 { Pow128Grows(10, i); }
  }

  /** What a group adds never leaves 64 bits. */
  lemma GroupValue(x: u64, m: u64, i: nat)
    requires x + m * Pow128(i) < TWO64
    ensures Wrap64(x + m % 128 * Pow128(i)) == x + m % 128 * Pow128(i)
    ensures x + m % 128 * Pow128(i) + m / 128 * Pow128(i + 1) == x + m * Pow128(i)
  {
    GroupSplit(m, Pow128(i));
    assert m % 128 * Pow128(i) >= 0 && m / 128 * Pow128(i + 1) >= 0;
  }

  /** The encoding of m at position i of a buffer: its first byte, and what follows. */
  lemma EncodingAt(buf: Bytes, i: nat, m: u64, rest: Bytes)
    requires i <= |buf| && buf[i..] == EncUvarint(m) + rest
    ensures i < |buf|
    ensures m < 128 ==> buf[i] == m
    ensures m >= 128 ==> buf[i] == m % 128 + 128 && buf[i + 1..] == EncUvarint(m / 128) + rest
  {
    assert buf[i] == buf[i..][0];
    assert buf[i + 1..] == buf[i..][1..];
  }

  lemma {:induction false} UvarintFromRoundTrip(buf: Bytes, i: nat, x: u64, m: u64, rest: Bytes)
    requires i <= |buf| && buf[i..] == EncUvarint(m) + rest
    requires m > 0 || i == 0
    requires x + m * Pow128(i) < TWO64
    ensures UvarintFrom(buf, i, x) == (x + m * Pow128(i), i + |EncUvarint(m)|)
    decreases m
  {
    if m > 0 { GroupInRange(m, i); }
    EncodingAt(buf, i, m, rest);
    GroupValue(x, m, i);
    if m >= 128 {
      UvarintFromRoundTrip(buf, i + 1, x + m % 128 * Pow128(i), m / 128, rest);
    }
  }

  lemma UvarintDecodes(n: u64, rest: Bytes)
    ensures UvarintFrom(EncUvarint(n) + rest, 0, 0) == (n, |EncUvarint(n)|)
  {
    var buf := EncUvarint(n) + rest;
    assert buf[0..] == buf;
    assert n * Pow128(0) == n;
    UvarintFromRoundTrip(buf, 0, 0, n, rest);
  }

  /** Every 64-bit value survives, whatever follows it, and exactly its bytes are used. */
  lemma UvarintRoundTrip(n: u64, rest: Bytes)
    ensures NextUvarint(Start(EncUvarint(n) + rest)) == (n, Start(rest))
  {
    var buf := EncUvarint(n) + rest;
    var used := |EncUvarint(n)|;
    assert UvarintFrom(buf, 0, 0) == (n, used) by { UvarintDecodes(n, rest); }
    assert buf[used..] == rest;
  }

  lemma {:induction false} LittleEndianRoundTrip(n: nat, k: nat, p: nat)
    requires p == Pow256(k) && n < p
    ensures LittleEndianValue(EncLittleEndian(n, k)) == n
  {
    if k > 0 { LittleEndianRoundTrip(n / 256, k - 1, Pow256(k - 1)); }
  }

  function Pow256(n: nat): nat {
    if n == 0 then 1 else 256 * Pow256(n - 1)
  }

  lemma Uint64RoundTrip(n: u64, rest: Bytes)
    ensures NextUint64(Start(EncLittleEndian(n, 8) + rest)) == (n, Start(rest))
  {
    assert Pow256(4) == TWO32;
    assert Pow256(8) == TWO64;
    LittleEndianRoundTrip(n, 8, TWO64);
    var buf := EncLittleEndian(n, 8) + rest;
    assert buf[..8] == EncLittleEndian(n, 8) && buf[8..] == rest;
  }

  /** A string as long as Go allows comes back whole. */
  lemma StringRoundTrip(s: Bytes, rest: Bytes)
    requires |s| < TWO63
    ensures NextByteSlice(Start(EncString(s) + rest)) == (s, Start(rest))
  {
    var header := EncUvarint(|s|);
    assert EncString(s) + rest == header + (s + rest);
    UvarintDecodes(|s|, s + rest);
    assert (EncString(s) + rest)[|header|..] == s + rest;
    assert (s + rest)[..|s|] == s && (s + rest)[|s|..] == rest;
  }

  /** Reading a byte string panics exactly on a well-formed length of 2^63 or more. */
  lemma ByteSlicePanicsExactly(d: Reader)
    requires !d.panicked && |d.data| < TWO63
    ensures NextByteSlice(d).1.panicked <==>
            !d.error && |d.data| > 0 && UvarintFrom(d.data, 0, 0).1 >= 0 && UvarintFrom(d.data, 0, 0).0 >= TWO63
  {
  }

  lemma FixedByteArrayRoundTrip(a: Bytes, rest: Bytes)
    ensures NextFixedByteArray(Start(a + rest), |a|) == (a, Start(rest))
  {
    assert (a + rest)[..|a|] == a && (a + rest)[|a|..] == rest;
  }

  lemma Uint8RoundTrip(b: byte, rest: Bytes)
    ensures NextUint8(Start([b] + rest)) == (b, Start(rest))
  {
    assert ([b] + rest)[1..] == rest;
  }

  // ----- arbitrary input: a reader only ever moves forward -----

  /** later is earlier after some bytes have been consumed; errors and panics never clear. */
  ghost predicate Advances(earlier: Reader, later: Reader) {
    && |later.data| <= |earlier.data|
    && later.data == earlier.data[|earlier.data| - |later.data|..]
    && (earlier.error ==> later == earlier)
    && (earlier.panicked ==> later.panicked)
  }

  lemma DropTwice(s: Bytes, i: nat, j: nat)
    requires i + j <= |s|
    ensures s[i..][j..] == s[i + j..]
  {
  }

  lemma ReadsAdvance(d: Reader, length: nat)
    ensures Advances(d, NextUint8(d).1)
    ensures Advances(d, NextUint64(d).1)
    ensures Advances(d, NextUvarint(d).1)
    ensures Advances(d, NextFixedByteArray(d, length).1)
  {
  }

  lemma ByteSliceAdvances(d: Reader)
    ensures Advances(d, NextByteSlice(d).1)
  {
    if !d.error && |d.data| > 0 {
      var (length, used) := UvarintFrom(d.data, 0, 0);
      if used >= 0 && length <= |d.data| - used {
        DropTwice(d.data, used, length);
      }
    }
  }

  lemma AdvancesReflexively(a: Reader)
    ensures Advances(a, a)
  {
  }

  lemma AdvancesTransitively(a: Reader, b: Reader, c: Reader)
    requires Advances(a, b) && Advances(b, c)
    ensures Advances(a, c)
  {
  }
}
