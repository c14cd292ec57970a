/** Typed values on top of the byte codec: one item per write method of crates/core/src/canonical.rs,
    and the in-place writer and reader. */
module CodecItems {
  import opened Prelude
  import opened Codec

  // ---------- Fixed-width integers ----------

  function LittleEndian(v: nat, width: nat): (bs: seq<Byte>)
    ensures |bs| == width
  {
    if width == 0 then [] else [v % 256] + LittleEndian(v / 256, width - 1)
  }

  function FromLittleEndian(bs: seq<Byte>): (v: nat) {
    if bs == [] then 0 else bs[0] + 256 * FromLittleEndian(bs[1..])
  }

  lemma {:induction false} LittleEndianRoundTrip(v: nat, width: nat)
    requires v < Pow2(8 * width)
    ensures FromLittleEndian(LittleEndian(v, width)) == v
    decreases width
  {
    if width > 0 {
      Pow2Adds(8, 8 * (width - 1));
      assert Pow2(8) == 256;
      LittleEndianRoundTrip(v / 256, width - 1);
      assert LittleEndian(v, width)[1..] == LittleEndian(v / 256, width - 1);
    }
  }

  lemma {:induction false} FromLittleEndianBound(bs: seq<Byte>)
    ensures FromLittleEndian(bs) < Pow2(8 * |bs|)
  {
    if bs != [] {
      FromLittleEndianBound(bs[1..]);
      Pow2Adds(8, 8 * (|bs| - 1));
      assert Pow2(8) == 256;
    }
  }

  /** The cast of a signed integer to the unsigned integer of the same width, and back. */
  function ToTwos(i: int, width: nat): (u: nat) {
    i % Pow2(8 * width)
  }

  function FromTwos(u: nat, width: nat): (i: int) {
    if 2 * u >= Pow2(8 * width) then u - Pow2(8 * width) else u
  }

  // ---------- Items ----------

  datatype Kind = Unsigned(width: nat) | Signed(width: nat) | Bytes(length: nat) | Varint

  datatype Item =
    | UInt(width: nat, n: nat)
    | SInt(width: nat, i: int)
    | Raw(bytes: seq<Byte>)
    | Var(n: nat)

  predicate IsWidth(w: nat) {
    w == 1 || w == 2 || w == 4 || w == 8 || w == 16
  }

  /** The item is a value of its Rust type. */
  predicate InRange(it: Item) {
    match it
    case UInt(w, n) => IsWidth(w) && n < Pow2(8 * w)
    case SInt(w, i) => IsWidth(w) && 0 - Pow2(8 * w - 1) <= i < Pow2(8 * w - 1)
    case Raw(_) => true
    case Var(n) => n < U64_LIMIT
  }

  predicate IsKind(k: Kind) {
    (k.Unsigned? || k.Signed?) ==> IsWidth(k.width)
  }

  function KindOf(it: Item): (k: Kind) {
    match it
    case UInt(w, _) => Unsigned(w)
    case SInt(w, _) => Signed(w)
    case Raw(bs) => Bytes(|bs|)
    case Var(_) => Varint
  }

  lemma TwosInRange(i: int, width: nat)
    requires width > 0 && 0 - Pow2(8 * width - 1) <= i < Pow2(8 * width - 1)
    ensures ToTwos(i, width) < Pow2(8 * width)
    ensures FromTwos(ToTwos(i, width), width) == i
  {
    var p := Pow2(8 * width);
    assert p == 2 * Pow2(8 * width - 1);
    SmallCast(i, p);
  }

  lemma SmallCast(i: int, p: nat)
    requires p > 0 && 0 - p <= i < p
    ensures i % p == if i < 0 then i + p else i
  {
    if i < 0 {
      ModUnique(i, p, -1, i + p);
    } else {
      ModUnique(i, p, 0, i);
    }
  }

  function Encode(it: Item): (bs: seq<Byte>) {
    match it
    case UInt(w, n) => LittleEndian(n, w)
    case SInt(w, i) => LittleEndian(ToTwos(i, w), w)
    case Raw(bs) => bs
    case Var(n) => EncodeVarint(n)
  }

  datatype Read = Got(item: Item, used: nat) | Failed(used: nat)

  /** Reading one item from the front of a byte string; a failed varint still consumes bytes. */
  function Decode(k: Kind, bs: seq<Byte>): (r: Read)
    ensures r.Got? ==> r.used <= |bs|
  {
    match k
    case Unsigned(w) => if |bs| < w then Failed(0) else Got(UInt(w, FromLittleEndian(bs[..w])), w)
    case Signed(w) => if |bs| < w then Failed(0) else Got(SInt(w, FromTwos(FromLittleEndian(bs[..w]), w)), w)
    case Bytes(n) => if |bs| < n then Failed(0) else Got(Raw(bs[..n]), n)
    case Varint =>
      match DecodeVarint(bs)
      case Value(v, n) => Got(Var(v), n)
      case Truncated => Failed(|bs|)
      case Overflow => Failed(10)
  }

  /** One item written and read back, whatever follows it. */
  lemma ItemRoundTrip(it: Item, rest: seq<Byte>)
    requires InRange(it)
    ensures Decode(KindOf(it), Encode(it) + rest) == Got(it, |Encode(it)|)
  {
    match it
    case UInt(w, n) =>
      LittleEndianRoundTrip(n, w);
      assert (LittleEndian(n, w) + rest)[..w] == LittleEndian(n, w);
    case SInt(w, i) =>
      SignedRoundTrip(i, w);
      assert (LittleEndian(ToTwos(i, w), w) + rest)[..w] == LittleEndian(ToTwos(i, w), w);
    case Raw(b) =>
      assert (b + rest)[..|b|] == b;
    case Var(n) =>
      VarintRoundTrip(n, rest);
  }

  lemma SignedRoundTrip(i: int, width: nat)
    requires width > 0 && 0 - Pow2(8 * width - 1) <= i < Pow2(8 * width - 1)
    ensures FromTwos(FromLittleEndian(LittleEndian(ToTwos(i, width), width)), width) == i
  {
    TwosInRange(i, width);
    LittleEndianRoundTrip(ToTwos(i, width), width);
  }

  /** Every item a reader returns is a value of its type. */
  lemma DecodedInRange(k: Kind, bs: seq<Byte>)
    requires IsKind(k) && Decode(k, bs).Got?
    ensures InRange(Decode(k, bs).item) && KindOf(Decode(k, bs).item) == k
  {
    match k
    case Unsigned(w) => FromLittleEndianBound(bs[..w]);
    case Signed(w) =>
      FromLittleEndianBound(bs[..w]);
      assert Pow2(8 * w) == 2 * Pow2(8 * w - 1);
    case Bytes(n) =>
    case Varint =>
  }

  // ---------- The bytes on the wire ----------

  lemma Monotone(p: nat, a: nat, b: nat)
    requires a <= b
    ensures p * a <= p * b
  {
  }

  lemma Scaled(base: nat, p: nat, q: nat)
    ensures base * p * q == base * (p * q)
  {
  }

  /** q is v divided by p, rounded down. */
  ghost predicate IsQuotient(v: nat, p: nat, q: nat) {
    p * q <= v < p * (q + 1)
  }

  lemma QuotientIs(v: nat, p: nat, q: nat)
    requires p > 0 && IsQuotient(v, p, q)
    ensures v / p == q
  {
    assert p * (q + 1) == p * q + p;
    ModUnique(v, p, q, v - p * q);
  }

  lemma QuotientStep(v: nat, base: nat, p: nat, q: nat)
    requires base > 0 && IsQuotient(v / base, p, q)
    ensures IsQuotient(v, base * p, q)
  {
    var w := v / base;
    assert base * w <= v < base * (w + 1);
    Monotone(base, p * q, w);
    Monotone(base, w + 1, p * (q + 1));
    Scaled(base, p, q);
    Scaled(base, p, q + 1);
  }

  lemma BytePlace(k: nat)
    ensures Pow2(8 * (k + 1)) == 256 * Pow2(8 * k)
  {
    assert Pow2(8) == 256;
    Pow2Adds(8, 8 * k);
  }

  /** Byte i of the encoding is the remainder of the quotient by its place value. */
  lemma {:induction false} ByteQuotient(v: nat, width: nat, i: nat) returns (q: nat)
    requires i < width
    ensures IsQuotient(v, Pow2(8 * i), q) && LittleEndian(v, width)[i] == q % 256
    decreases width
  {
    if i == 0 {
      q := v;
    } else {
      q := ByteQuotient(v / 256, width - 1, i - 1);
      BytePlace(i - 1);
      QuotientStep(v, 256, Pow2(8 * (i - 1)), q);
    }
  }

  lemma LittleEndianByte(v: nat, width: nat, i: nat)
    requires i < width
    ensures LittleEndian(v, width)[i] == v / Pow2(8 * i) % 256
  {
    var q := ByteQuotient(v, width, i);
    QuotientIs(v, Pow2(8 * i), q);
  }

  /** The value of a byte string by position: byte i counts 2^(8i). */
  function Positional(bs: seq<Byte>): (v: nat) {
    if bs == [] then 0 else Positional(bs[..|bs| - 1]) + bs[|bs| - 1] * Pow2(8 * (|bs| - 1))
  }

  lemma {:induction false} PositionalFirst(bs: seq<Byte>)
    requires bs != []
    ensures Positional(bs) == bs[0] + 256 * Positional(bs[1..])
  {
    var n := |bs| - 1;
    if n > 0 {
      PositionalFirst(bs[..n]);
      assert bs[1..][..n - 1] == bs[..n][1..];
      BytePlace(n - 1);
      assert bs[n] * (256 * Pow2(8 * (n - 1))) == 256 * (bs[n] * Pow2(8 * (n - 1)));
    } else {
      assert bs[..0] == [] && bs[1..] == [];
    }
  }

  lemma {:induction false} LittleEndianIsPositional(bs: seq<Byte>)
    ensures FromLittleEndian(bs) == Positional(bs)
  {
    if bs != [] {
      LittleEndianIsPositional(bs[1..]);
      PositionalFirst(bs);
    }
  }

  lemma HighQuotient(v: nat, p: nat, q: nat)
    requires p > 0 && IsQuotient(v, p, q) && v < 256 * p
    ensures q < 256 && (q >= 128 <==> v >= 128 * p)
  {
    if q >= 256 { Monotone(p, 256, q); }
    if q >= 128 { Monotone(p, 128, q); } else { Monotone(p, q + 1, 128); }
  }

  lemma TopByte(v: nat, width: nat)
    requires width > 0 && v < Pow2(8 * width)
    ensures LittleEndian(v, width)[width - 1] >= 128 <==> 2 * v >= Pow2(8 * width)
  {
    var q := ByteQuotient(v, width, width - 1);
    BytePlace(width - 1);
    HighQuotient(v, Pow2(8 * (width - 1)), q);
  }

  /** Byte i of an unsigned item, least significant first, and the sign bit of a signed item. */
  lemma EncodedBytes(it: Item, i: nat)
    requires InRange(it) && (it.UInt? || it.SInt?) && i < it.width
    ensures |Encode(it)| == it.width
    ensures it.UInt? ==> Encode(it)[i] == it.n / Pow2(8 * i) % 256
    ensures it.SInt? ==> (Encode(it)[it.width - 1] >= 128 <==> it.i < 0)
  {
    if it.UInt? {
      LittleEndianByte(it.n, it.width, i);
    } else {
      var p := Pow2(8 * it.width);
      assert p == 2 * Pow2(8 * it.width - 1);
      SmallCast(it.i, p);
      TopByte(ToTwos(it.i, it.width), it.width);
    }
  }

  /** What a fixed-width read returns, by position: an unsigned item is the sum of its bytes times
      their place values, and a signed one is 2^(8w) less when its last byte has the top bit set. */
  lemma DecodedValue(k: Kind, bs: seq<Byte>)
    requires IsKind(k) && (k.Unsigned? || k.Signed?) && |bs| >= k.width
    ensures Decode(k, bs).Got? && Decode(k, bs).used == k.width
    ensures var it, v := Decode(k, bs).item, Positional(bs[..k.width]);
            && (k.Unsigned? ==> it == UInt(k.width, v))
            && (k.Signed? ==> it == SInt(k.width, if bs[k.width - 1] >= 128 then v - Pow2(8 * k.width) else v))
  {
    var front := bs[..k.width];
    LittleEndianIsPositional(front);
    FromLittleEndianBound(front);
    LittleEndianInverse(front);
    TopByte(FromLittleEndian(front), k.width);
  }

  /** Reading and writing back gives the same bytes. */
  lemma {:induction false} LittleEndianInverse(bs: seq<Byte>)
    ensures LittleEndian(FromLittleEndian(bs), |bs|) == bs
  {
    if bs != [] {
      var v := FromLittleEndian(bs[1..]);
      LittleEndianInverse(bs[1..]);
      ModUnique(bs[0] + 256 * v, 256, v, bs[0]);
      assert bs == [bs[0]] + bs[1..];
    }
  }

  lemma {:induction false} VarintQuotient(v: nat, i: nat) returns (q: nat)
    requires i < |EncodeVarint(v)|
    ensures IsQuotient(v, Pow2(7 * i), q) && EncodeVarint(v)[i] % 128 == q % 128
    ensures EncodeVarint(v)[i] >= 128 <==> i + 1 < |EncodeVarint(v)|
    decreases i
  {
    if i == 0 {
      q := v;
    } else {
      q := VarintQuotient(v / 128, i - 1);
      assert Pow2(7) == 128;
      Pow2Adds(7, 7 * (i - 1));
      QuotientStep(v, 128, Pow2(7 * (i - 1)), q);
    }
  }

  /** Byte i of a varint carries the seven bits from 7i up, least significant group first, and has the
      top bit set exactly when another byte follows. */
  lemma VarintByte(v: nat, i: nat)
    requires i < |EncodeVarint(v)|
    ensures EncodeVarint(v)[i] % 128 == v / Pow2(7 * i) % 128
    ensures EncodeVarint(v)[i] >= 128 <==> i + 1 < |EncodeVarint(v)|
  {
    var q := VarintQuotient(v, i);
    QuotientIs(v, Pow2(7 * i), q);
  }

  // ---------- Sequences of items ----------

  ghost predicate AllInRange(items: seq<Item>) {
    forall i :: 0 <= i < |items| ==> InRange(items[i])
  }

  function EncodeAll(items: seq<Item>): (bs: seq<Byte>) {
    if items == [] then [] else Encode(items[0]) + EncodeAll(items[1..])
  }

  function Kinds(items: seq<Item>): (ks: seq<Kind>)
    ensures |ks| == |items|
  {
    if items == [] then [] else [KindOf(items[0])] + Kinds(items[1..])
  }

  datatype ReadAll = All(items: seq<Item>, rest: seq<Byte>) | Stopped

  function DecodeAll(kinds: seq<Kind>, bs: seq<Byte>): (r: ReadAll)
    decreases |kinds|
  {
    if kinds == [] then All([], bs)
    else
      match Decode(kinds[0], bs)
      case Failed(_) => Stopped
      case Got(it, used) =>
        match DecodeAll(kinds[1..], bs[used..])
        case Stopped => Stopped
        case All(items, rest) => All([it] + items, rest)
  }

  /** Any sequence of typed writes, read back with the same sequence of types, yields the same
      values and leaves exactly what followed. */
  lemma {:induction false} SequenceRoundTrip(items: seq<Item>, rest: seq<Byte>)
    requires AllInRange(items)
    ensures DecodeAll(Kinds(items), EncodeAll(items) + rest) == All(items, rest)
  {
    if items == [] {
      assert EncodeAll(items) + rest == rest;
    } else {
      var it, more := items[0], items[1..];
      SequenceRoundTrip(more, rest);
      var front, back := Encode(it), EncodeAll(more) + rest;
      ItemRoundTrip(it, back);
      ConcatAssociates(front, EncodeAll(more), rest);
      DecodeFirst(it, front, back, Kinds(more), more, rest);
      HeadTail(items);
    }
  }

  lemma HeadTail<T>(s: seq<T>)
    requires s != []
    ensures s == [s[0]] + s[1..]
  {
  }

  lemma DecodeFirst(it: Item, front: seq<Byte>, back: seq<Byte>, kinds: seq<Kind>, items: seq<Item>, rest: seq<Byte>)
    requires Decode(KindOf(it), front + back) == Got(it, |front|)
    requires DecodeAll(kinds, back) == All(items, rest)
    ensures DecodeAll([KindOf(it)] + kinds, front + back) == All([it] + items, rest)
  {
    var ks := [KindOf(it)] + kinds;
    assert ks[0] == KindOf(it) && ks[1..] == kinds;
    assert (front + back)[|front|..] == back;
  }

  /** One turn of the writer's loop: the low seven bits, with the top bit set while more follow. */
  lemma VarintStep(v: nat)
    ensures v / 128 == 0 ==> EncodeVarint(v) == [v % 128]
    ensures v / 128 != 0 ==> Or(v % 128, 0x80) < 256 && EncodeVarint(v) == [Or(v % 128, 0x80)] + EncodeVarint(v / 128)
  {
    assert Pow2(7) == 128;
    OrAdds(v % 128, 1, 7);
  }

  // ---------- The writer ----------

  class ByteWriter {
    var buffer: seq<Byte>

    constructor ()
      ensures buffer == []
    {
      buffer := [];
    }

    method WriteUnsigned(width: nat, n: nat)
      requires InRange(UInt(width, n))
      modifies this
      ensures buffer == old(buffer) + Encode(UInt(width, n))
    {
      buffer := buffer + LittleEndian(n, width);
    }

    method WriteSigned(width: nat, i: int)
      requires InRange(SInt(width, i))
      modifies this
      ensures buffer == old(buffer) + Encode(SInt(width, i))
    {
      buffer := buffer + LittleEndian(ToTwos(i, width), width);
    }

    method WriteBytes(bytes: seq<Byte>)
      modifies this
      ensures buffer == old(buffer) + Encode(Raw(bytes))
    {
      buffer := buffer + bytes;
    }

    /** Masking with 0x7F keeps the remainder modulo 128, and shifting right by 7 divides by it. */
    method WriteVarint(value: nat)
      requires InRange(Var(value))
      modifies this
      ensures buffer == old(buffer) + Encode(Var(value))
    {
      var val, more := value, true;
      while more
        invariant more ==> buffer + EncodeVarint(val) == old(buffer) + EncodeVarint(value)
        invariant !more ==> buffer == old(buffer) + EncodeVarint(value)
        decreases more, val
      {
        var byte := val % 128;
        ghost var before := val;
        val := val / 128;
        VarintStep(before);
        if val != 0 {
          byte := Or(byte, 0x80);
        }
        ConcatAssociates(buffer, [byte], EncodeVarint(val));
        buffer := buffer + [byte];
        more := val != 0;
      }
    }
  }

  // ---------- The reader ----------

  class ByteReader {
    const data: seq<Byte>
    var position: nat

    ghost predicate Valid()
      reads this
    {
      position <= |data|
    }

    ghost function Ahead(): (bs: seq<Byte>)
      requires Valid()
      reads this
    {
      data[position..]
    }

    constructor (bytes: seq<Byte>)
      ensures data == bytes && Valid() && Ahead() == bytes
    {
      data, position := bytes, 0;
    }

    /** A short read fails and moves nothing. */
    method ReadBytes(count: nat) returns (r: Option<seq<Byte>>)
      requires Valid()
      modifies this
      ensures Valid()
      ensures |old(Ahead())| < count ==> r == None && position == old(position)
      ensures |old(Ahead())| >= count ==> r == Some(old(Ahead())[..count]) && position == old(position) + count
    {
      if position + count > |data| {
        return None;
      }
      assert data[position..][..count] == data[position..position + count];
      r := Some(data[position..position + count]);
      position := position + count;
    }

    method ReadUnsigned(width: nat) returns (r: Option<nat>)
      requires Valid() && IsWidth(width)
      modifies this
      ensures Valid()
      ensures match Decode(Unsigned(width), old(Ahead()))
              case Failed(used) => r == None && position == old(position) + used
              case Got(it, used) => r == Some(it.n) && position == old(position) + used
    {
      var bytes := ReadBytes(width);
      if bytes.None? {
        return None;
      }
      return Some(FromLittleEndian(bytes.value));
    }

    method ReadSigned(width: nat) returns (r: Option<int>)
      requires Valid() && IsWidth(width)
      modifies this
      ensures Valid()
      ensures match Decode(Signed(width), old(Ahead()))
              case Failed(used) => r == None && position == old(position) + used
              case Got(it, used) => r == Some(it.i) && position == old(position) + used
    {
      var n := ReadUnsigned(width);
      if n.None? {
        return None;
      }
      return Some(FromTwos(n.value, width));
    }

    /** Terminates on every input, consumes at most ten bytes and never shifts by 64 or more. */
    method ReadVarint() returns (r: Option<nat>)
      requires Valid()
      modifies this
      ensures Valid() && position <= old(position) + 10
      ensures match Decode(Varint, old(Ahead()))
              case Failed(used) => r == None && position == old(position) + used
              case Got(it, used) => r == Some(it.n) && position == old(position) + used
    {
      var result, shift := 0, 0;
      ghost var input := Ahead();
      ghost var k := 0;
      while true
        invariant Valid() && k <= 9 && shift == 7 * k < 64
        invariant position == old(position) + k && k <= |input|
        invariant forall i :: 0 <= i < k ==> input[i] >= 128
        invariant result == GroupValue(input[..k])
        decreases 10 - k
      {
        var byte := ReadUnsigned(1);
        if byte.None? {
          StillOpen(input, k);
          return None;
        }
        SingleByte(input, k);
        assert byte.value == input[k];
        NextGroup(input, k);
        result := Or(result, byte.value % 128 * Pow2(shift) % U64_LIMIT);
        k := k + 1;
        if byte.value < 128 {
          Closed(input, k);
          return Some(result);
        }
        shift := shift + 7;
        if shift >= 64 {
          StillOpen(input, k);
          return None;
        }
        SmallGroups(input, k);
      }
    }

    method Remaining() returns (n: nat)
      requires Valid()
      ensures n == |Ahead()|
    {
      n := |data| - position;
    }
  }

  lemma SingleByte(input: seq<Byte>, k: nat)
    requires k < |input|
    ensures FromLittleEndian(input[k..][..1]) == input[k]
  {
    var one := input[k..][..1];
    assert one == [input[k]] && one[1..] == [];
  }

  lemma StillOpen(input: seq<Byte>, k: nat)
    requires k <= |input| && (k == 10 || (k < 10 && k == |input|))
    requires forall i :: 0 <= i < k ==> input[i] >= 128
    ensures DecodeVarint(input) == if k == 10 then Overflow else Truncated
  {
    var window := if |input| > 10 then input[..10] else input;
    assert |window| == k;
  }

  lemma SmallGroups(input: seq<Byte>, k: nat)
    requires k <= 9 && k <= |input|
    ensures GroupValue(input[..k]) % U64_LIMIT == GroupValue(input[..k])
  {
    NineGroups(input[..k]);
    SmallModulo(GroupValue(input[..k]));
  }

  /** One turn of the reader's loop: the shifted group, cut to 64 bits, is ored onto the value. */
  lemma NextGroup(input: seq<Byte>, k: nat)
    requires k <= 9 && k < |input|
    ensures Or(GroupValue(input[..k]), input[k] % 128 * Pow2(7 * k) % U64_LIMIT)
         == GroupValue(input[..k + 1]) % U64_LIMIT
  {
    var low, g := GroupValue(input[..k]), input[k] % 128;
    assert input[..k + 1] == input[..k] + [input[k]];
    GroupAppend(input[..k], input[k]);
    GroupBound(input[..k]);
    if k < 9 {
      NineGroups(input[..k + 1]);
      LowerGroup(low, g, k);
    } else {
      WordSize();
      TopGroup(low, g);
      OrAdds(low, g % 2, 63);
    }
  }

  lemma LowerGroup(low: nat, g: nat, k: nat)
    requires low < Pow2(7 * k) && low + g * Pow2(7 * k) < U64_LIMIT
    ensures Or(low, g * Pow2(7 * k) % U64_LIMIT) == (low + g * Pow2(7 * k)) % U64_LIMIT
  {
    var x := g * Pow2(7 * k);
    SmallModulo(low + x);
    SmallModulo(x);
    OrAdds(low, g, 7 * k);
  }

  lemma TopGroup(low: nat, g: nat)
    requires low < U64_LIMIT / 2
    ensures g * (U64_LIMIT / 2) % U64_LIMIT == g % 2 * (U64_LIMIT / 2)
    ensures (low + g * (U64_LIMIT / 2)) % U64_LIMIT == low + g % 2 * (U64_LIMIT / 2)
  {
    var q := g / 2;
    assert g * (U64_LIMIT / 2) == U64_LIMIT * q + g % 2 * (U64_LIMIT / 2);
    ModUnique(g * (U64_LIMIT / 2), U64_LIMIT, q, g % 2 * (U64_LIMIT / 2));
    ModUnique(low + g * (U64_LIMIT / 2), U64_LIMIT, q, low + g % 2 * (U64_LIMIT / 2));
  }
}
