/** Difficulty targets (pow/target.go): a 32-byte hash is compared, byte by byte, with the
    right-aligned big-endian bytes of (2^256 - 1) / difficulty. */
module Target {
  import opened GoTypes

  const HASH_LENGTH := 32

  /** maxBigInt, the number written with 64 hex digits f. */
  const MAX_TARGET: nat := 0xffff_ffff_ffff_ffff_ffff_ffff_ffff_ffff_ffff_ffff_ffff_ffff_ffff_ffff_ffff_ffff

  function GetTarget(diff: u64): nat {
    if diff == 0 then 0 else MAX_TARGET / diff
  }

  /** big.Int.Bytes: big-endian, no leading zero byte. */
  function MinimalBytes(n: nat): Bytes {
    if n == 0 then [] else MinimalBytes(n / 256) + [n % 256]
  }

  function Zeros(n: nat): (z: Bytes)
    ensures |z| == n && forall i :: 0 <= i < n ==> z[i] == 0
  {
    seq(n, _ => 0)
  }

  /** copy(data[32-len(byt):], byt) into a zeroed 32-byte buffer. */
  function GetTargetBytes(diff: u64): (target: Bytes)
    ensures |target| == HASH_LENGTH
  {
    var byt := MinimalBytes(GetTarget(diff));
    MinimalBytesFit(GetTarget(diff), HASH_LENGTH);
    Zeros(HASH_LENGTH - |byt|) + byt
  }

  /** bytes.Compare: negative, zero or positive. */
  function Compare(a: Bytes, b: Bytes): int {
    if a == [] then (if b == [] then 0 else -1)
    else if b == [] then 1
    else if a[0] != b[0] then a[0] - b[0]
    else Compare(a[1..], b[1..])
  }

  predicate CheckDiff(hash: Bytes, diff: u64)
    requires |hash| == HASH_LENGTH
  {
    Compare(hash, GetTargetBytes(diff)) <= 0
  }

  // ----- the number a byte string stands for -----

  function Pow256(n: nat): (p: nat)
    ensures p >= 1
  {
    if n == 0 then 1 else 256 * Pow256(n - 1)
  }

  /** Big-endian value. */
  function Value(s: Bytes): nat {
    if s == [] then 0 else Value(s[..|s| - 1]) * 256 + s[|s| - 1]
  }

  lemma Pow256Of32()
    ensures Pow256(32) == MAX_TARGET + 1
  {
    assert Pow256(4) == 0x1_0000_0000;
    assert Pow256(8) == 0x1_0000_0000_0000_0000;
    assert Pow256(12) == 0x1_0000_0000_0000_0000_0000_0000;
    assert Pow256(16) == 0x1_0000_0000_0000_0000_0000_0000_0000_0000;
    assert Pow256(20) == 0x1_0000_0000_0000_0000_0000_0000_0000_0000_0000_0000;
    assert Pow256(24) == 0x1_0000_0000_0000_0000_0000_0000_0000_0000_0000_0000_0000_0000;
    assert Pow256(28) == 0x1_0000_0000_0000_0000_0000_0000_0000_0000_0000_0000_0000_0000_0000_0000;
  }

  lemma {:induction false} MinimalBytesBelow(n: nat, k: nat)
    requires n < Pow256(k)
    ensures |MinimalBytes(n)| <= k
  {
    if n != 0 {
      MinimalBytesBelow(n / 256, k - 1);
    }
  }

  lemma MinimalBytesFit(n: nat, k: nat)
    requires n <= MAX_TARGET && k == HASH_LENGTH
    ensures |MinimalBytes(n)| <= k
  {
    Pow256Of32();
    MinimalBytesBelow(n, 32);
  }

  lemma {:induction false} ValueOfMinimalBytes(n: nat)
    ensures Value(MinimalBytes(n)) == n
  {
    if n != 0 {
      ValueOfMinimalBytes(n / 256);
      assert MinimalBytes(n)[..|MinimalBytes(n)| - 1] == MinimalBytes(n / 256);
    }
  }

  lemma {:induction false} ValueSkipsZeros(k: nat, s: Bytes)
    ensures Value(Zeros(k) + s) == Value(s)
  {
    var t := Zeros(k) + s;
    if s != [] {
      ValueSkipsZeros(k, s[..|s| - 1]);
      assert t[..|t| - 1] == Zeros(k) + s[..|s| - 1];
    } else if k != 0 {
      ValueSkipsZeros(k - 1, s);
      assert t[..|t| - 1] == Zeros(k - 1) + s;
    } else {
      assert t == s;
    }
  }

  lemma {:induction false} ValueBound(s: Bytes)
    ensures Value(s) < Pow256(|s|)
  {
    if s != [] { ValueBound(s[..|s| - 1]); }
  }

  /** The first byte is the most significant one. */
  lemma {:induction false} ValueOfHead(s: Bytes)
    requires s != []
    ensures Value(s) == s[0] * Pow256(|s| - 1) + Value(s[1..])
  {
    if |s| == 1 {
      assert s[..0] == [] && s[1..] == [];
      assert Value(s) == s[0];
    } else {
      var init := s[..|s| - 1];
      ValueOfHead(init);
      assert init[1..] == s[1..][..|s| - 2];
      assert s[1..][|s| - 2] == s[|s| - 1];
      assert Value(s[1..]) == Value(init[1..]) * 256 + s[|s| - 1];
      assert Pow256(|s| - 1) == 256 * Pow256(|s| - 2);
      assert s[0] * Pow256(|s| - 2) * 256 == s[0] * Pow256(|s| - 1);
    }
  }

  /** A larger leading digit outweighs everything behind it. */
  lemma LeadingDigitDecides(x: nat, y: nat, p: nat, u: nat, v: nat)
    requires x < y && u < p
    ensures x * p + u < y * p + v
  {
    assert (x + 1) * p <= y * p;
  }

  /** Comparing equally long byte strings lexicographically compares the numbers. */
  lemma {:induction false} CompareIsNumeric(a: Bytes, b: Bytes)
    requires |a| == |b|
    ensures Compare(a, b) < 0 <==> Value(a) < Value(b)
    ensures Compare(a, b) == 0 <==> Value(a) == Value(b)
  {
    if a != [] {
      var p, u, v := Pow256(|a| - 1), Value(a[1..]), Value(b[1..]);
      assert Value(a) == a[0] * p + u && Value(b) == b[0] * p + v by {
        ValueOfHead(a);
        ValueOfHead(b);
      }
      assert u < p && v < p by {
        ValueBound(a[1..]);
        ValueBound(b[1..]);
      }
      if a[0] < b[0] {
        LeadingDigitDecides(a[0], b[0], p, u, v);
      } else if b[0] < a[0] {
        LeadingDigitDecides(b[0], a[0], p, v, u);
      } else {
        CompareIsNumeric(a[1..], b[1..]);
      }
    }
  }

  lemma ValueOfTargetBytes(diff: u64)
    ensures Value(GetTargetBytes(diff)) == GetTarget(diff)
  {
    var byt := MinimalBytes(GetTarget(diff));
    MinimalBytesFit(GetTarget(diff), HASH_LENGTH);
    ValueSkipsZeros(HASH_LENGTH - |byt|, byt);
    ValueOfMinimalBytes(GetTarget(diff));
  }

  lemma DivisionBound(v: nat, d: nat, m: nat)
    requires d > 0
    ensures v <= m / d <==> v * d <= m
  {
    if v <= m / d {
      assert v * d <= (m / d) * d <= m;
    } else {
      assert v * d >= (m / d + 1) * d > m;
    }
  }

  /** The whole check in integers: hash * difficulty <= 2^256 - 1. Difficulty 0 accepts only
      the all-zero hash. */
  lemma CheckDiffMeaning(hash: Bytes, diff: u64)
    requires |hash| == HASH_LENGTH
    ensures diff > 0 ==> (CheckDiff(hash, diff) <==> Value(hash) * diff <= MAX_TARGET)
    ensures diff == 0 ==> (CheckDiff(hash, diff) <==> Value(hash) == 0)
  {
    CompareIsNumeric(hash, GetTargetBytes(diff));
    ValueOfTargetBytes(diff);
    if diff > 0 { DivisionBound(Value(hash), diff, MAX_TARGET); }
  }

  lemma ProductGrows(v: nat, low: nat, high: nat)
    requires low <= high
    ensures v * low <= v * high
  {
  }

  /** A hash good enough for a difficulty is good enough for every smaller one but 0. */
  lemma CheckDiffAntitone(hash: Bytes, low: u64, high: u64)
    requires |hash| == HASH_LENGTH
    requires 0 < low <= high
    ensures CheckDiff(hash, high) ==> CheckDiff(hash, low)
  {
    CheckDiffMeaning(hash, low);
    CheckDiffMeaning(hash, high);
    ProductGrows(Value(hash), low, high);
  }
}
