/** The bytes themselves: what a varint is, and the layout of every record and packet on an example. */
module WireFormat {
  import opened GoTypes
  import opened Codec
  import opened Records
  import opened Target
  import opened Frames

  /** Seven bits a byte, the lowest first. */
  function Base128(s: Bytes): nat {
    if s == [] then 0
    else
      var low: int := s[0];
      low % 128 + 128 * Base128(s[1..])
  }

  /** A varint is the value in base 128, lowest digit first, without leading zeros, with the top bit set
      on every byte but the last. */
  lemma {:induction false} VarintIsBase128(n: u64)
    ensures var e := EncUvarint(n);
            && Base128(e) == n
            && (forall i :: 0 <= i < |e| ==> (e[i] >= 128 <==> i < |e| - 1))
            && (|e| > 1 ==> e[|e| - 1] != 0)
  {
    var e := EncUvarint(n);
    if n >= 128 {
      VarintIsBase128(n / 128);
      assert e[1..] == EncUvarint(n / 128);
    } else {
      assert e[1..] == [];
    }
  }

  lemma Varints()
    ensures EncUvarint(0) == [0] && EncUvarint(5) == [5] && EncUvarint(127) == [127]
    ensures EncUvarint(128) == [128, 1] && EncUvarint(300) == [172, 2]
  {
    assert EncUvarint(1) == [1] && EncUvarint(2) == [2];
  }

  lemma LittleEndians()
    ensures EncLittleEndian(1, 8) == [1, 0, 0, 0, 0, 0, 0, 0]
    ensures EncLittleEndian(258, 8) == [2, 1, 0, 0, 0, 0, 0, 0]
  {
    Zero(6);
    Zero(7);
    assert EncLittleEndian(258, 8) == [2] + EncLittleEndian(1, 7);
    assert EncLittleEndian(1, 7) == [1] + EncLittleEndian(0, 6);
    assert EncLittleEndian(1, 8) == [1] + EncLittleEndian(0, 7);
  }

  lemma {:induction false} Zero(k: nat)
    ensures EncLittleEndian(0, k) == Zeros(k)
  {
    if k > 0 {
      Zero(k - 1);
      assert EncLittleEndian(0, k) == [0] + Zeros(k - 1);
    }
  }

  lemma ShareLayout()
    ensures EncShare(Share([97, 98], 258, 1))
         == [0, 2, 97, 98, 2, 1, 0, 0, 0, 0, 0, 0, 1, 0, 0, 0, 0, 0, 0, 0]
  {
    hide EncLittleEndian;
    LittleEndians();
    assert EncUvarint(2) == [2];
  }

  lemma AddrInfoLayout()
    ensures EncAddrInfo(AddrInfo(300, 5, 128)) == [0, 172, 2, 5, 128, 1]
  {
    hide EncUvarint;
    Varints();
  }

  lemma UnconfTxLayout(hash: Bytes, bals: map<Bytes, u64>)
    requires |hash| == 32 && bals.Keys == {[97], [98, 99]} && bals[[97]] == 300 && bals[[98, 99]] == 5
    ensures EncUnconfTx(UnconfTx(128, hash, bals), [[98, 99], [97]])
         == [0, 128, 1] + hash + [2, 2, 98, 99, 5, 1, 97, 172, 2]
  {
    hide EncUvarint;
    Varints();
    assert EncUvarint(1) == [1] && EncUvarint(2) == [2] by { Small(); }
    assert |bals| == 2 by { assert |bals.Keys| == 2; }
    var order: seq<Bytes> := [[98, 99], [97]];
    assert order[..1] == [[98, 99]] && order[..1][..0] == [];
    assert EncBals(bals, []) == [];
    assert EncBals(bals, order[..1]) == [2, 98, 99, 5];
    assert EncBals(bals, order) == [2, 98, 99, 5] + [1, 97] + [172, 2];
  }

  lemma Small()
    ensures EncUvarint(1) == [1] && EncUvarint(2) == [2] && EncUvarint(3) == [3]
  {
  }

  lemma PendingLayout(tx: UnconfTx, order: seq<Bytes>)
    requires Enumerates(order, tx.bals)
    ensures EncPending(PendingBals(300, []), []) == [0, 172, 2, 0]
    ensures EncPending(PendingBals(300, [tx]), [order]) == [0, 172, 2, 1] + EncUnconfTx(tx, order)
  {
    hide EncUvarint, EncUnconfTx;
    Varints();
    Small();
    assert [tx][..0] == [] && [order][..0] == [];
    assert EncTxs([], []) == [];
    assert EncTxs([tx], [order]) == [] + EncUnconfTx(tx, order);
  }

  lemma PacketLayout(hash: Bytes)
    requires |hash| == 32
    ensures Encode(SharesFound(3, [97, 98], 300)) == [0, 3, 2, 97, 98, 172, 2]
    ensures Encode(BlockFound(hash)) == [1] + hash
    ensures Encode(Stats(128)) == [2, 128, 1]
    ensures Encode(Ban([97], 258)) == [4, 1, 97, 2, 1, 0, 0, 0, 0, 0, 0]
  {
    hide EncUvarint, EncLittleEndian;
    Varints();
    Small();
    LittleEndians();
  }

  /** A message's length goes before it in two bytes, low byte first. */
  lemma FrameLayout(c: Cipher, s: Sent)
    requires |s.msg| == 258
    ensures Frame(c, s) == c.enc([2, 1], s.lengthNonce) + c.enc(s.msg, s.nonce)
  {
    assert |s.msg| % LENGTH_LIMIT == 258;
    assert EncLittleEndian(0, 0) == [] && EncLittleEndian(1, 1) == [1] + EncLittleEndian(0, 0);
    assert EncLittleEndian(258, 2) == [2] + EncLittleEndian(1, 1);
    var head: Bytes := [2, 1];
    assert EncLittleEndian(258, 2) == head;
  }

  // ----- input that is too short or too long -----

  /** A read fails exactly when its bytes are not there. */
  lemma ReadsFailExactly(d: Reader, length: nat)
    requires !d.error
    ensures NextUint8(d).1.error <==> d.data == []
    ensures d.data != [] ==> NextUint8(d).0 == d.data[0]
    ensures NextUint64(d).1.error <==> |d.data| < 8
    ensures NextFixedByteArray(d, length).1.error <==> |d.data| < length
    ensures d.data == [] ==> NextUvarint(d).1.error && NextByteSlice(d).1.error
    ensures NextUint8(d).1.error ==> NextUint8(d).0 == 0
    ensures NextUint64(d).1.error ==> NextUint64(d).0 == 0
  {
  }

  lemma {:induction false} Unfinished(s: Bytes, i: nat, x: u64)
    requires i <= |s| && i <= 10 && forall k :: i <= k < |s| && k < 10 ==> s[k] >= 128
    ensures UvarintFrom(s, i, x) == if |s| <= 10 then (0, 0) else (0, -11)
    decreases |s| - i
  {
    hide Pow128;
    if i < |s| && i < 10 {
      Unfinished(s, i + 1, Wrap64(x + (s[i] - 128) * Pow128(i)));
    }
  }

  /** A varint that is cut off is no error: it reads as 0, and nothing is consumed. One that goes on after
      ten bytes is an error. */
  lemma UnfinishedVarints(s: Bytes)
    requires s != [] && forall k :: 0 <= k < |s| && k < 10 ==> s[k] >= 128
    ensures NextUvarint(Start(s)) == if |s| <= 10 then (0, Start(s)) else (0, Start(s).(error := true))
  {
    hide UvarintFrom;
    Unfinished(s, 0, 0);
  }

  /** A length beyond the end of the data is an error, and only the length is consumed. */
  lemma LengthBeyondEnd(n: u64, rest: Bytes)
    requires |rest| < n < TWO63
    ensures NextByteSlice(Start(EncUvarint(n) + rest)) == ([], Reader(rest, true, false))
  {
    hide UvarintFrom;
    UvarintDecodes(n, rest);
    assert (EncUvarint(n) + rest)[|EncUvarint(n)|..] == rest;
  }
}
