/** Unsigned 256-bit numbers as 32 bytes, least significant byte first. The conversion from a big
    integer goes through the big-endian form and reverses it in place. */
module U256 {

  import opened Wrappers

  type byte = n: nat | n < 256

  datatype ConvertError = ErrLength | ErrSign

  const LENGTH: nat := 32
  const BITS: nat := 256

  function Pow2(k: nat): (p: int)
    ensures p > 0
  {
    if k == 0 then 1 else 2 * Pow2(k - 1)
  }

  function Pow256(k: nat): (p: int)
    ensures p > 0
  {
    if k == 0 then 1 else 256 * Pow256(k - 1)
  }

  /** Number of bits of the absolute value, as `big.Int.BitLen`. */
  function BitLen(x: int): nat
    decreases if x < 0 then -x else x
  {
    var a := if x < 0 then -x else x;
    if a == 0 then 0 else 1 + BitLen(a / 2)
  }

  lemma {:induction false} BitLenBounds(x: int, k: nat)
    ensures BitLen(x) <= k <==> -Pow2(k) < x < Pow2(k)
    decreases if x < 0 then -x else x
  {
    var a := if x < 0 then -x else x;
    if a > 0 && k > 0 {
      BitLenBounds(a / 2, k - 1);
    }
  }

  lemma {:induction false} BytesAndBits(k: nat)
    ensures Pow256(k) == Pow2(8 * k)
  {
    if k > 0 {
      BytesAndBits(k - 1);
      var m := 8 * (k - 1);
      assert Pow2(m + 8) == 2 * Pow2(m + 7) == 4 * Pow2(m + 6) == 8 * Pow2(m + 5) == 16 * Pow2(m + 4);
      assert Pow2(m + 4) == 2 * Pow2(m + 3) == 4 * Pow2(m + 2) == 8 * Pow2(m + 1) == 16 * Pow2(m);
    }
  }

  // ---- byte strings as numbers ----

  /** Most significant byte first. */
  function BigEndian(bs: seq<byte>): nat {
    if bs == [] then 0 else 256 * BigEndian(bs[..|bs| - 1]) + bs[|bs| - 1]
  }

  /** Least significant byte first: what a U256Str stands for. */
  function LittleEndian(bs: seq<byte>): nat {
    if bs == [] then 0 else bs[0] + 256 * LittleEndian(bs[1..])
  }

  function Reversed(bs: seq<byte>): (r: seq<byte>)
    ensures |r| == |bs|
    ensures forall i :: 0 <= i < |bs| ==> r[i] == bs[|bs| - 1 - i]
  {
    if bs == [] then [] else [bs[|bs| - 1]] + Reversed(bs[..|bs| - 1])
  }

  lemma ReversedTwice(bs: seq<byte>)
    ensures Reversed(Reversed(bs)) == bs
  {
    assert forall i :: 0 <= i < |bs| ==> Reversed(Reversed(bs))[i] == bs[i];
  }

  /** Reversing changes the byte order and nothing else. */
  lemma {:induction false} ReversedSwitchesOrder(bs: seq<byte>)
    ensures LittleEndian(Reversed(bs)) == BigEndian(bs)
  {
    if bs != [] {
      var init := bs[..|bs| - 1];
      ReversedSwitchesOrder(init);
      assert Reversed(bs)[1..] == Reversed(init);
    }
  }

  /** k bytes stand for exactly the numbers below 256^k, each number for one byte string. */
  lemma {:induction false} LittleEndianBelow(bs: seq<byte>)
    ensures LittleEndian(bs) < Pow256(|bs|)
  {
    if bs != [] {
      LittleEndianBelow(bs[1..]);
    }
  }

  lemma {:induction false} LittleEndianInjective(a: seq<byte>, b: seq<byte>)
    requires |a| == |b| && LittleEndian(a) == LittleEndian(b)
    ensures a == b
  {
    if a != [] {
      assert a[0] == b[0] && LittleEndian(a[1..]) == LittleEndian(b[1..]);
      LittleEndianInjective(a[1..], b[1..]);
      assert a == [a[0]] + a[1..] && b == [b[0]] + b[1..];
    }
  }

  // ---- the conversions ----

  /** `reverse`: a reversed copy. */
  method Reverse(src: array<byte>) returns (dst: array<byte>)
    ensures fresh(dst) && dst[..] == Reversed(src[..])
  {
    var n := src.Length;
    dst := new byte[n](i requires 0 <= i < n reads src => src[i]);
    var i := n / 2 - 1;
    while i >= 0
      invariant -1 <= i < n - n / 2
      invariant 2 * i < n
      invariant forall k :: i < k < n - 1 - i ==> dst[k] == src[n - 1 - k]
      invariant forall k :: 0 <= k <= i ==> dst[k] == src[k]
      invariant forall k :: n - 1 - i <= k < n ==> dst[k] == src[k]
    {
      var opp := n - 1 - i;
      dst[i], dst[opp] := dst[opp], dst[i];
      i := i - 1;
    }
    MirroredIsReversed(src[..], dst[..]);
  }

  lemma MirroredIsReversed(src: seq<byte>, dst: seq<byte>)
    requires |src| == |dst| && forall k :: 0 <= k < |src| ==> dst[k] == src[|src| - 1 - k]
    ensures dst == Reversed(src)
  {
  }

  /** `big.Int.FillBytes`: the big-endian form, which has to fit. */
  method FillBytes(x: nat, buf: array<byte>)
    requires x < Pow256(buf.Length)
    modifies buf
    ensures BigEndian(buf[..]) == x
  {
    var rest: nat, i := x, buf.Length;
    while i > 0
      invariant 0 <= i <= buf.Length
      invariant rest < Pow256(i)
      invariant x == rest * Pow256(buf.Length - i) + BigEndian(buf[i..])
    {
      hide BigEndian;
      ghost var before := buf[i..];
      i := i - 1;
      buf[i] := rest % 256;
      assert buf[i..] == [buf[i]] + before;
      assert |before| == buf.Length - i - 1;
      PrependDigit(buf[i], before, rest / 256);
      rest := rest / 256;
    }
    assert buf[0..] == buf[..] && rest == 0;
  }

  lemma {:induction false} PrependValue(b: byte, bs: seq<byte>)
    ensures BigEndian([b] + bs) == b * Pow256(|bs|) + BigEndian(bs)
  {
    if bs == [] {
      assert ([b] + bs)[..0] == [];
    } else {
      var init := bs[..|bs| - 1];
      assert ([b] + bs)[..|bs|] == [b] + init;
      PrependValue(b, init);
      assert 256 * (b * Pow256(|init|)) == b * (256 * Pow256(|init|));
    }
  }

  lemma MoveDigit(high: nat, b: nat, p: int)
    ensures (256 * high + b) * p == high * (256 * p) + b * p
  {
  }

  lemma PrependDigit(b: byte, bs: seq<byte>, high: nat)
    ensures (256 * high + b) * Pow256(|bs|) + BigEndian(bs) == high * Pow256(|bs| + 1) + BigEndian([b] + bs)
  {
    PrependValue(b, bs);
    hide BigEndian;
    MoveDigit(high, b, Pow256(|bs|));
    assert Pow256(|bs| + 1) == 256 * Pow256(|bs|);
  }

  /** Succeeds exactly on 0 <= x < 2^256, and then the bytes stand for x; on error nothing changes.
      Numbers too long are reported as such even when they are negative. */
  method FromBig(n: array<byte>, x: int) returns (r: Result<(), ConvertError>)
    requires n.Length == LENGTH
    modifies n
    ensures r.Success? <==> 0 <= x < Pow2(256)
    ensures r.Success? ==> LittleEndian(n[..]) == x
    ensures r.Failure? ==> n[..] == old(n[..])
    ensures r == Failure(ErrLength) <==> x <= -Pow2(256) || x >= Pow2(256)
  {
    BitLenBounds(x, BITS);
    if BitLen(x) > BITS {
      return Failure(ErrLength);
    }
    if x < 0 {
      return Failure(ErrSign);
    }
    BytesAndBits(LENGTH);
    hide Pow2, BitLen, Pow256, LittleEndian;
    FillReversed(n, x);
    return Success(());
  }

  /** `copy(n[:], reverse(x.FillBytes(n[:])))`: n itself is the buffer that is filled. */
  method FillReversed(n: array<byte>, x: nat)
    requires x < Pow256(n.Length)
    modifies n
    ensures LittleEndian(n[..]) == x
  {
    hide Pow256, LittleEndian, BigEndian, Reversed;
    FillBytes(x, n);
    var reversed := Reverse(n);
    ReversedSwitchesOrder(n[..]);
    CopyBytes(reversed, n);
  }

  method CopyBytes(src: array<byte>, dst: array<byte>)
    requires src.Length == dst.Length && src != dst
    modifies dst
    ensures dst[..] == src[..]
  {
    forall i | 0 <= i < dst.Length {
      dst[i] := src[i];
    }
  }

  method BigInt(n: array<byte>) returns (x: nat)
    ensures x == LittleEndian(n[..])
  {
    var reversed := Reverse(n);
    ReversedTwice(n[..]);
    ReversedSwitchesOrder(reversed[..]);
    x := SetBytes(reversed);
  }

  /** `big.Int.SetBytes`. */
  method SetBytes(bs: array<byte>) returns (x: nat)
    ensures x == BigEndian(bs[..])
  {
    x := 0;
    for i := 0 to bs.Length
      invariant x == BigEndian(bs[..i])
    {
      assert bs[..i + 1][..i] == bs[..i];
      x := 256 * x + bs[i];
    }
    assert bs[..bs.Length] == bs[..];
  }

  /** `BigInt` after `FromBig` is the identity exactly where `FromBig` succeeds. Elsewhere the bytes
      keep their old value, which is never x. */
  method RoundTrip(n: array<byte>, x: int) returns (y: nat)
    requires n.Length == LENGTH
    modifies n
    ensures y == x <==> 0 <= x < Pow2(256)
  {
    var r := FromBig(n, x);
    y := BigInt(n);
    LittleEndianBelow(n[..]);
    BytesAndBits(LENGTH);
  }

  /** The other way round: converting the number of a byte string gives the same bytes back. */
  method BytesRoundTrip(n: array<byte>)
    requires n.Length == LENGTH
    modifies n
    ensures n[..] == old(n[..])
  {
    ghost var before := n[..];
    var x := BigInt(n);
    LittleEndianBelow(before);
    BytesAndBits(LENGTH);
    var r := FromBig(n, x);
    LittleEndianInjective(n[..], before);
  }
}
