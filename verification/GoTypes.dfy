/** Go's fixed-width integers and byte strings, as the rest of the model sees them. */
module GoTypes {

  const TWO32: int := 0x1_0000_0000
  const TWO63: int := 0x8000_0000_0000_0000
  const TWO64: int := 0x1_0000_0000_0000_0000

  type byte = x: int | 0 <= x < 256
  type u32 = x: int | 0 <= x < TWO32
  type u64 = x: int | 0 <= x < TWO64
  type i32 = x: int | -0x8000_0000 <= x < 0x8000_0000

  /** A Go string or []byte: any sequence of bytes. */
  type Bytes = seq<byte>

  datatype Option<+T> = None | Some(value: T)

  /** uint64 arithmetic keeps the low 64 bits. */
  function Wrap64(x: int): u64 {
    x % TWO64
  }

  lemma WrapShift(x: int, k: int)
    ensures Wrap64(x + k * TWO64) == Wrap64(x)
  {
    var q, r := x / TWO64, x % TWO64;
    assert x + k * TWO64 == (q + k) * TWO64 + r;
  }

  /** Intermediate wrap-arounds do not matter. */
  lemma WrapSum(x: int, y: int)
    ensures Wrap64(Wrap64(x) + y) == Wrap64(x + y)
    ensures Wrap64(y - Wrap64(x)) == Wrap64(y - x)
  {
    var q := x / TWO64;
    assert Wrap64(x) == x - q * TWO64;
    WrapShift(x + y, -q);
    WrapShift(y - x, q);
  }

  lemma WrapInRange(x: u64)
    ensures Wrap64(x) == x
  {
  }

  /** uint32 arithmetic keeps the low 32 bits. */
  function Wrap32(x: int): u32 {
    x % TWO32
  }

  /** int32 arithmetic: the low 32 bits, read as two's complement. */
  function WrapI32(x: int): i32 {
    var y := x % TWO32;
    if y < 0x8000_0000 then y else y - TWO32
  }

  /** -x for an int32 x. */
  function NegateI32(x: i32): i32 {
    var n: int := x;
    WrapI32(0 - n)
  }

  /** int(x) for a uint64 x on a 64-bit platform. */
  function ToInt(x: u64): int {
    if x < TWO63 then x else x - TWO64
  }

  function Min(a: int, b: int): int {
    if a <= b then a else b
  }

  ghost predicate Distinct<T(!new)>(s: seq<T>) {
    forall i, j :: 0 <= i < j < |s| ==> s[i] != s[j]
  }

  /** An order in which a Go range loop or a cursor may visit a map: every key once. */
  ghost predicate Enumerates<K(!new), V>(order: seq<K>, m: map<K, V>) {
    Distinct(order) && forall k :: k in order <==> k in m
  }

  /** Indexing a Go map: the zero value for an absent key. */
  function Get<K>(m: map<K, nat>, k: K): nat {
    if k in m then m[k] else 0
  }
}
