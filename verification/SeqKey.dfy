/**
Fixed-width big-endian keys (internal/seqkey/seqkey.go and the 32-bit pairs of
internal/inbound/bbolt.go). A bbolt cursor walks keys in byte order, so what matters is that
decoding inverts encoding and that byte order is number order.
*/
module SeqKey {
  type Byte = b: int | 0 <= b < 256

  type Bytes = seq<Byte>

  const U32: nat := 0x1_0000_0000
  const U64: nat := 0x1_0000_0000_0000_0000

  /** 256 to the power k. */
  function Pow256(k: nat): (p: nat)
    ensures p > 0
  {
    if k == 0 then 1 else 256 * Pow256(k - 1)
  }

  /** The k-byte big-endian form of n; the bytes above it are cut off, as a fixed-width store does. */
  function BigEndian(n: nat, k: nat): (s: Bytes)
    ensures |s| == k
  {
    if k == 0 then [] else BigEndian(n / 256, k - 1) + [n % 256]
  }

  function Value(s: Bytes): (n: nat)
  {
    if s == [] then 0 else 256 * Value(s[..|s| - 1]) + s[|s| - 1]
  }

  lemma {:induction false} ValueBelow(s: Bytes)
    ensures Value(s) < Pow256(|s|)
  {
    if s != [] {
      ValueBelow(s[..|s| - 1]);
    }
  }

  lemma {:induction false} BigEndianRoundTrip(n: nat, k: nat)
    requires n < Pow256(k)
    ensures Value(BigEndian(n, k)) == n
  {
    if k > 0 {
      assert BigEndian(n, k)[..k - 1] == BigEndian(n / 256, k - 1);
      BigEndianRoundTrip(n / 256, k - 1);
    }
  }

  /** Byte order, the order in which a cursor visits keys. */
  predicate Less(a: Bytes, b: Bytes)
  {
    if b == [] then false
    else if a == [] then true
    else a[0] < b[0] || (a[0] == b[0] && Less(a[1..], b[1..]))
  }

  lemma {:induction false} ValueOfCons(s: Bytes)
    requires s != []
    ensures Value(s) == s[0] * Pow256(|s| - 1) + Value(s[1..])
  {
    if |s| > 1 {
      var init := s[..|s| - 1];
      ValueOfCons(init);
      assert init[1..] == s[1..][..|s[1..]| - 1];
    }
  }

  lemma LeadingByteDecides(x: nat, y: nat, p: nat, u: nat, v: nat)
    requires u < p && v < p
    ensures x < y ==> x * p + u < y * p + v
  {
    if x < y {
      var d: nat := y - x - 1;
      assert y * p == (x + d + 1) * p == x * p + d * p + p;
      assert d * p >= 0;
    }
  }

  lemma {:induction false} ByteOrderIsValueOrder(a: Bytes, b: Bytes)
    requires |a| == |b|
    ensures Less(a, b) <==> Value(a) < Value(b)
    ensures Value(a) == Value(b) ==> a == b
  {
    if a != [] {
      var u, v, p := Value(a[1..]), Value(b[1..]), Pow256(|a| - 1);
      ByteOrderIsValueOrder(a[1..], b[1..]);
      ValueOfCons(a);
      ValueOfCons(b);
      ValueBelow(a[1..]);
      ValueBelow(b[1..]);
      LeadingByteDecides(a[0], b[0], p, u, v);
      LeadingByteDecides(b[0], a[0], p, v, u);
      assert a == [a[0]] + a[1..] && b == [b[0]] + b[1..];
    }
  }

  // ---- The sequence keys themselves ----

  function Encode(seqNo: nat): Bytes
  {
    BigEndian(seqNo, 8)
  }

  /** A key that is not exactly eight bytes long decodes to 0. */
  function Decode(key: Bytes): nat
  {
    if |key| != 8 then 0 else Value(key)
  }

  lemma PowerValues()
    ensures Pow256(4) == U32 && Pow256(8) == U64
  {
    assert Pow256(2) == 0x1_0000;
    assert Pow256(4) == U32;
    assert Pow256(6) == 0x1_0000_0000_0000;
  }

  lemma DecodeEncode(n: nat)
    requires n < U64
    ensures Decode(Encode(n)) == n
  {
    PowerValues();
    BigEndianRoundTrip(n, 8);
  }

  lemma KeyOrderIsSequenceOrder(m: nat, n: nat)
    requires m < U64 && n < U64
    ensures Less(Encode(m), Encode(n)) <==> m < n
    ensures Encode(m) == Encode(n) <==> m == n
  {
    DecodeEncode(m);
    DecodeEncode(n);
    ByteOrderIsValueOrder(Encode(m), Encode(n));
  }
}
