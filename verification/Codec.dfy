/** The byte writer and reader of crates/core/src/canonical.rs: little-endian integers of fixed width,
    two's-complement casts, raw bytes and base-128 varints. */
module Codec {
  import opened Prelude

  type Byte = x: nat | x < 256

  // ---------- Bit operations on numbers ----------

  /** Bitwise or. */
  function Or(a: nat, b: nat): (r: nat)
    decreases a + b
  {
    if a == 0 then b else if b == 0 then a
    else 2 * Or(a / 2, b / 2) + if a % 2 == 1 || b % 2 == 1 then 1 else 0
  }

  /** Or adds when the low k bits of b are clear and a fits into them. */
  lemma {:induction false} OrAdds(a: nat, b: nat, k: nat)
    requires a < Pow2(k)
    ensures Or(a, b * Pow2(k)) == a + b * Pow2(k)
    decreases k
  {
    if a != 0 && b != 0 {
      var q := b * Pow2(k - 1);
      assert b * Pow2(k) == 2 * q;
      OrAdds(a / 2, b, k - 1);
      assert (2 * q) / 2 == q && (2 * q) % 2 == 0;
      if q == 0 {
        assert b * Pow2(k) == 0;
      }
    }
  }

  lemma {:induction false} Pow2Adds(a: nat, b: nat)
    ensures Pow2(a + b) == Pow2(a) * Pow2(b)
  {
    if a == 0 {
    } else {
      Pow2Adds(a - 1, b);
      assert Pow2(a + b) == 2 * Pow2(a - 1 + b);
    }
  }

  lemma WordSize()
    ensures Pow2(7) == 128 && Pow2(63) == U64_LIMIT / 2 && Pow2(64) == U64_LIMIT
  {
    assert Pow2(7) == 128;
    Pow2Adds(7, 7);
    Pow2Adds(14, 14);
    Pow2Adds(28, 28);
    Pow2Adds(56, 7);
    assert Pow2(14) == 16384 && Pow2(28) == 268435456 && Pow2(56) == 72057594037927936;
    assert Pow2(64) == 2 * Pow2(63);
  }

  // ---------- Varint: the encoding ----------

  function EncodeVarint(v: nat): (bs: seq<Byte>)
    ensures |bs| > 0
  {
    if v < 128 then [v] else [v % 128 + 128] + EncodeVarint(v / 128)
  }

  /** The value of the 7-bit groups, least significant first. */
  function GroupValue(bs: seq<Byte>): (v: nat) {
    if bs == [] then 0 else bs[0] % 128 + 128 * GroupValue(bs[1..])
  }

  /** The number of bytes up to and including the first without a continuation bit, if any. */
  function Terminated(bs: seq<Byte>): (n: Option<nat>)
    ensures n.Some? ==> 0 < n.value <= |bs| && bs[n.value - 1] < 128
    ensures n.Some? ==> forall i :: 0 <= i < n.value - 1 ==> bs[i] >= 128
    ensures n.None? ==> forall i :: 0 <= i < |bs| ==> bs[i] >= 128
  {
    if bs == [] then None
    else if bs[0] < 128 then Some(1)
    else
      match Terminated(bs[1..])
      case None => None
      case Some(n) => Some(n + 1)
  }

  datatype Decoded = Value(v: nat, used: nat) | Truncated | Overflow

  /** What reading a varint from a byte string means: ten groups at most, value modulo 2^64. */
  function DecodeVarint(bs: seq<Byte>): (r: Decoded)
    ensures r.Value? ==> 0 < r.used <= |bs| && r.used <= 10
  {
    match Terminated(if |bs| > 10 then bs[..10] else bs)
    case Some(n) => Value(GroupValue(bs[..n]) % U64_LIMIT, n)
    case None => if |bs| < 10 then Truncated else Overflow
  }

  // ---------- Varint: what the encoding guarantees ----------

  /** Splitting a number into its low group and the rest, and putting it together. */
  lemma LowGroup(low: nat, high: nat)
    requires low < 128
    ensures (low + 128 * high) % 128 == low && (low + 128 * high) / 128 == high
    ensures (low + 128) % 128 == low
  {
  }

  lemma {:induction false} EncodedValue(v: nat)
    ensures GroupValue(EncodeVarint(v)) == v
  {
    var bs := EncodeVarint(v);
    if v < 128 {
      assert bs[1..] == [];
    } else {
      EncodedValue(v / 128);
      LowGroup(v % 128, v / 128);
      assert bs[0] == v % 128 + 128 && bs[1..] == EncodeVarint(v / 128);
    }
  }

  lemma {:induction false} EncodedEnds(v: nat, rest: seq<Byte>)
    ensures Terminated(EncodeVarint(v) + rest) == Some(|EncodeVarint(v)|)
  {
    var bs := EncodeVarint(v);
    if v < 128 {
      assert (bs + rest)[0] == v;
    } else {
      EncodedEnds(v / 128, rest);
      assert (bs + rest)[1..] == EncodeVarint(v / 128) + rest;
    }
  }

  lemma {:induction false} EncodedLength(v: nat, k: nat)
    requires k > 0
    ensures |EncodeVarint(v)| <= k <==> v < Pow2(7 * k)
    decreases k
  {
    Pow2Adds(7, 7 * (k - 1));
    assert Pow2(7) == 128;
    if k == 1 {
      assert v >= 128 ==> |EncodeVarint(v)| >= 2;
    } else {
      Pow2Grows(7, 7 * k);
      if v >= 128 {
        EncodedLength(v / 128, k - 1);
        ScaledBelow(v, Pow2(7 * (k - 1)));
      }
    }
  }

  lemma ScaledBelow(v: nat, p: nat)
    ensures v / 128 < p <==> v < 128 * p
  {
  }

  lemma {:induction false} Pow2Grows(a: nat, b: nat)
    requires a <= b
    ensures Pow2(a) <= Pow2(b)
    decreases b
  {
    if a < b {
      Pow2Grows(a, b - 1);
    }
  }

  /** Every u64 encodes to one to ten bytes. */
  lemma EncodedSize(v: nat)
    requires v < U64_LIMIT
    ensures 1 <= |EncodeVarint(v)| <= 10
  {
    WordSize();
    Pow2Grows(64, 70);
    EncodedLength(v, 10);
  }

  lemma SmallModulo(x: nat)
    requires x < U64_LIMIT
    ensures x % U64_LIMIT == x
  {
  }

  /** A string whose first byte without a continuation bit is its k-th decodes to its first k groups. */
  lemma Closed(input: seq<Byte>, k: nat)
    requires 0 < k <= 10 && k <= |input| && input[k - 1] < 128
    requires forall i :: 0 <= i < k - 1 ==> input[i] >= 128
    ensures DecodeVarint(input) == Value(GroupValue(input[..k]) % U64_LIMIT, k)
  {
    var window := if |input| > 10 then input[..10] else input;
    assert window[k - 1] < 128;
    assert Terminated(window) == Some(k);
  }

  /** Reading what was written returns the value and stops at the trailing bytes. */
  lemma VarintRoundTrip(v: nat, rest: seq<Byte>)
    requires v < U64_LIMIT
    ensures DecodeVarint(EncodeVarint(v) + rest) == Value(v, |EncodeVarint(v)|)
  {
    var bs := EncodeVarint(v);
    EncodedSize(v);
    EncodedValue(v);
    EncodedEnds(v, rest);
    Closed(bs + rest, |bs|);
    assert (bs + rest)[..|bs|] == bs;
    SmallModulo(v);
  }

  /** No encoding is a proper prefix of another. */
  lemma VarintPrefixFree(a: nat, b: nat)
    requires EncodeVarint(a) <= EncodeVarint(b)
    ensures a == b
  {
    var x, y := EncodeVarint(a), EncodeVarint(b);
    EncodedValue(a);
    EncodedValue(b);
    EncodedEnds(a, y[|x|..]);
    EncodedEnds(b, []);
    assert y == x + y[|x|..] && y + [] == y;
  }

  lemma {:induction false} GroupBound(bs: seq<Byte>)
    ensures GroupValue(bs) < Pow2(7 * |bs|)
  {
    if bs != [] {
      GroupBound(bs[1..]);
      Pow2Adds(7, 7 * (|bs| - 1));
      assert Pow2(7) == 128;
    }
  }

  /** No accepted byte string is shorter than the encoding of its value. */
  lemma VarintShortest(bs: seq<Byte>)
    requires DecodeVarint(bs).Value?
    ensures |EncodeVarint(DecodeVarint(bs).v)| <= DecodeVarint(bs).used <= 10
  {
    var n := DecodeVarint(bs).used;
    GroupBound(bs[..n]);
    EncodedLength(DecodeVarint(bs).v, n);
  }

  lemma {:induction false} GroupAppend(bs: seq<Byte>, b: Byte)
    ensures GroupValue(bs + [b]) == GroupValue(bs) + b % 128 * Pow2(7 * |bs|)
  {
    if bs == [] {
      assert bs + [b] == [b] && [b][1..] == [];
    } else {
      GroupAppend(bs[1..], b);
      assert (bs + [b])[1..] == bs[1..] + [b];
      Pow2Adds(7, 7 * (|bs| - 1));
      assert Pow2(7) == 128;
      assert 128 * (b % 128 * Pow2(7 * (|bs| - 1))) == b % 128 * Pow2(7 * |bs|);
    }
  }

  lemma {:induction false} NonzeroGroups(bs: seq<Byte>)
    requires bs != [] && 0 < bs[|bs| - 1] < 128
    ensures GroupValue(bs) > 0
  {
    if |bs| > 1 {
      NonzeroGroups(bs[1..]);
    }
  }

  lemma EncodeGroup(b: Byte, g: nat)
    requires b >= 128 && g > 0
    ensures EncodeVarint(b % 128 + 128 * g) == [b] + EncodeVarint(g)
  {
    LowGroup(b - 128, g);
    assert b % 128 == b - 128;
  }

  /** The groups of a terminated string with no redundant zero group are its value's encoding. */
  lemma {:induction false} MinimalIsEncoding(bs: seq<Byte>)
    requires Terminated(bs) == Some(|bs|) && (|bs| > 1 ==> bs[|bs| - 1] != 0)
    ensures EncodeVarint(GroupValue(bs)) == bs
  {
    if |bs| == 1 {
      assert bs[1..] == [] && bs == [bs[0]];
    } else {
      MinimalIsEncoding(bs[1..]);
      NonzeroGroups(bs[1..]);
      EncodeGroup(bs[0], GroupValue(bs[1..]));
      assert bs == [bs[0]] + bs[1..];
    }
  }

  lemma {:induction false} EncodingIsMinimal(v: nat)
    ensures var bs := EncodeVarint(v); |bs| > 1 ==> bs[|bs| - 1] != 0
    ensures v > 0 ==> EncodeVarint(v)[|EncodeVarint(v)| - 1] != 0
  {
    if v >= 128 {
      EncodingIsMinimal(v / 128);
    }
  }

  lemma TenGroups(bs: seq<Byte>)
    requires |bs| == 10 && bs[9] < 128
    ensures GroupValue(bs) < U64_LIMIT <==> bs[9] <= 1
  {
    assert bs == bs[..9] + [bs[9]];
    GroupAppend(bs[..9], bs[9]);
    GroupBound(bs[..9]);
    WordSize();
    assert 7 * |bs[..9]| == 63;
  }

  lemma NineGroups(bs: seq<Byte>)
    requires |bs| < 10
    ensures GroupValue(bs) < U64_LIMIT
  {
    GroupBound(bs);
    WordSize();
    Pow2Grows(7 * |bs|, 63);
  }

  /** Which accepted byte strings are canonical: exactly those without a redundant zero group and
      without bits beyond the sixty-fourth. */
  lemma CanonicalWhen(bs: seq<Byte>)
    requires DecodeVarint(bs).Value?
    ensures var Value(v, n) := DecodeVarint(bs);
            bs[..n] == EncodeVarint(v) <==> Tight(bs[..n])
  {
    var n := DecodeVarint(bs).used;
    var window := if |bs| > 10 then bs[..10] else bs;
    PrefixTerminated(window);
    assert bs[..n] == window[..n];
    CanonicalGroups(bs[..n]);
  }

  lemma FitsU64(p: seq<Byte>)
    requires 0 < |p| <= 10 && p[|p| - 1] < 128
    ensures GroupValue(p) < U64_LIMIT <==> (|p| == 10 ==> p[9] <= 1)
  {
    if |p| == 10 { TenGroups(p); } else { NineGroups(p); }
  }

  predicate Tight(p: seq<Byte>)
    requires 0 < |p| <= 10
  {
    (|p| > 1 ==> p[|p| - 1] != 0) && (|p| == 10 ==> p[9] <= 1)
  }

  lemma EncodingIsTight(v: nat)
    requires v < U64_LIMIT
    ensures |EncodeVarint(v)| <= 10 && Tight(EncodeVarint(v))
  {
    EncodedSize(v);
    EncodedValue(v);
    EncodedEnds(v, []);
    assert EncodeVarint(v) + [] == EncodeVarint(v);
    FitsU64(EncodeVarint(v));
    EncodingIsMinimal(v);
  }

  lemma TightIsEncoding(p: seq<Byte>)
    requires Terminated(p) == Some(|p|) && |p| <= 10 && Tight(p)
    ensures GroupValue(p) < U64_LIMIT && p == EncodeVarint(GroupValue(p))
  {
    FitsU64(p);
    MinimalIsEncoding(p);
  }

  lemma CanonicalGroups(p: seq<Byte>)
    requires Terminated(p) == Some(|p|) && |p| <= 10
    ensures p == EncodeVarint(GroupValue(p) % U64_LIMIT) <==> Tight(p)
  {
    EncodingIsTight(GroupValue(p) % U64_LIMIT);
    if Tight(p) {
      TightIsEncoding(p);
      SmallModulo(GroupValue(p));
    }
  }

  lemma {:induction false} PrefixTerminated(bs: seq<Byte>)
    requires Terminated(bs).Some?
    ensures Terminated(bs[..Terminated(bs).value]) == Terminated(bs)
  {
    if bs[0] >= 128 {
      PrefixTerminated(bs[1..]);
      var n := Terminated(bs).value;
      assert bs[..n][1..] == bs[1..][..n - 1];
    }
  }

  /** The reader accepts more than the writer produces: zero has a second, longer spelling. */
  lemma NonCanonicalAccepted()
    ensures DecodeVarint([128, 0]) == Value(0, 2) && EncodeVarint(0) == [0]
  {
    var bs: seq<Byte> := [128, 0];
    assert bs[1..] == [0] && bs[..2] == bs;
    assert Terminated(bs[1..]) == Some(1);
    assert GroupValue(bs[1..]) == 0 by {
      assert [0 as Byte][1..] == [];
    }
  }
}
