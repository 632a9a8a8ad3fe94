/** The canonical byte encoding that every signature and digest of the sync protocol is taken over. */
module Canonical {
  import opened Basics

  // ---------------------------------------------------------------------------------------------
  // Big-endian lengths

  function BigEndian(value: nat, width: nat): (out: seq<Byte>)
    ensures |out| == width
    decreases width
  {
    if width == 0 then [] else BigEndian(value / 256, width - 1) + [value % 256]
  }

  function FromBigEndian(bytes: seq<Byte>): nat {
    if bytes == [] then 0 else 256 * FromBigEndian(bytes[..|bytes| - 1]) + bytes[|bytes| - 1]
  }

  function Power256(width: nat): (p: nat)
    ensures p > 0
  {
    if width == 0 then 1 else 256 * Power256(width - 1)
  }

  /** Reading a big-endian field of the right width gives the number back. */
  lemma {:induction false} BigEndianRoundTrip(value: nat, width: nat)
    requires value < Power256(width)
    ensures FromBigEndian(BigEndian(value, width)) == value
    decreases width
  {
    if width > 0 {
      BigEndianRoundTrip(value / 256, width - 1);
      var out := BigEndian(value, width);
      assert out[..width - 1] == BigEndian(value / 256, width - 1);
      assert out[width - 1] == value % 256;
    }
  }

  lemma Power256Of8()
    ensures Power256(8) == U64_LIMIT
  {
    assert Power256(2) == 0x1_0000;
    assert Power256(4) == 0x1_0000_0000;
    assert Power256(6) == 0x1_0000_0000_0000;
    assert Power256(8) == 256 * (256 * Power256(6));
  }

  /** The downward loop that fills the eight length bytes, shifting the value right as it goes. */
  method WriteUint64(out: array<Byte>, value: U64)
    requires out.Length == 8
    modifies out
    ensures out[..] == BigEndian(value, 8)
    ensures FromBigEndian(out[..]) == value
  {
    var rest: nat := value;
    var index := 7;
    while index >= 0
      invariant -1 <= index <= 7
      invariant BigEndian(value, 8) == BigEndian(rest, index + 1) + out[index + 1..]
    {
      out[index] := rest % 256;
      assert BigEndian(rest, index + 1) == BigEndian(rest / 256, index) + [rest % 256];
      assert out[index..] == [rest % 256] + out[index + 1..];
      rest := rest / 256;
      index := index - 1;
    }
    assert out[0..] == out[..];
    Power256Of8();
    BigEndianRoundTrip(value, 8);
  }

  // ---------------------------------------------------------------------------------------------
  // Length-prefixed parts

  function Frame(part: Text): seq<Byte> {
    BigEndian(|part|, 8) + part
  }

  function Frames(parts: seq<Text>): seq<Byte> {
    if parts == [] then [] else Frame(parts[0]) + Frames(parts[1..])
  }

  lemma {:induction false} FramesOfSnoc(parts: seq<Text>, part: Text)
    ensures Frames(parts + [part]) == Frames(parts) + Frame(part)
  {
    var all := parts + [part];
    if parts == [] {
      assert all[1..] == [];
    } else {
      assert all[0] == parts[0] && all[1..] == parts[1..] + [part];
      FramesOfSnoc(parts[1..], part);
      var head, middle, tail := Frame(parts[0]), Frames(parts[1..]), Frame(part);
      assert head + (middle + tail) == head + middle + tail;
    }
  }

  /** Two frames that start two equal byte strings are the same frame. */
  lemma FrameIsPrefixFree(a: Text, b: Text, x: seq<Byte>, y: seq<Byte>)
    requires Frame(a) + x == Frame(b) + y
    ensures a == b && x == y
  {
    Power256Of8();
    BigEndianRoundTrip(|a|, 8);
    BigEndianRoundTrip(|b|, 8);
    assert (Frame(a) + x)[..8] == BigEndian(|a|, 8);
    assert (Frame(b) + y)[..8] == BigEndian(|b|, 8);
    assert (Frame(a) + x)[8..8 + |a|] == a;
    assert (Frame(b) + y)[8..8 + |b|] == b;
    assert (Frame(a) + x)[8 + |a|..] == x;
    assert (Frame(b) + y)[8 + |b|..] == y;
  }

  /** The encoding is injective on sequences of parts, whatever bytes the parts hold. */
  lemma {:induction false} FramesInjective(p: seq<Text>, q: seq<Text>)
    requires Frames(p) == Frames(q)
    ensures p == q
    decreases |p|
  {
    assert forall parts: seq<Text> | parts in {p, q} && parts != [] :: |Frames(parts)| >= 8;
    if p != [] && q != [] {
      FrameIsPrefixFree(p[0], q[0], Frames(p[1..]), Frames(q[1..]));
      FramesInjective(p[1..], q[1..]);
      assert p == [p[0]] + p[1..] && q == [q[0]] + q[1..];
    }
  }

  // ---------------------------------------------------------------------------------------------
  // Decimal numbers

  function Decimal(n: nat): (text: seq<Byte>)
    ensures |text| >= 1
    ensures forall i | 0 <= i < |text| :: 48 <= text[i] <= 57
  {
    if n < 10 then [48 + n] else Decimal(n / 10) + [48 + n % 10]
  }

  function FromDecimal(text: seq<Byte>): (n: nat)
    requires forall i | 0 <= i < |text| :: 48 <= text[i] <= 57
  {
    if text == [] then 0 else 10 * FromDecimal(text[..|text| - 1]) + (text[|text| - 1] - 48)
  }

  lemma {:induction false} DecimalRoundTrip(n: nat)
    ensures FromDecimal(Decimal(n)) == n
  {
    if n < 10 {
      assert Decimal(n)[..0] == [];
    } else {
      DecimalRoundTrip(n / 10);
      assert Decimal(n)[..|Decimal(n)| - 1] == Decimal(n / 10);
    }
  }

  lemma {:induction false} DecimalIsShort(n: nat)
    ensures |Decimal(n)| <= n / 10 + 1
  {
    if n >= 10 {
      DecimalIsShort(n / 10);
    }
  }

  /** A 64-bit number as decimal text. */
  function Number(value: U64): Text {
    DecimalIsShort(value);
    Decimal(value)
  }

  lemma NumberInjective(a: U64, b: U64)
    requires Number(a) == Number(b)
    ensures a == b
  {
    DecimalRoundTrip(a);
    DecimalRoundTrip(b);
  }

  // ---------------------------------------------------------------------------------------------
  // The builder

  /** Accumulates parts; its output is always the encoding of the parts added so far. */
  class Builder {
    var out: seq<Byte>
    ghost var parts: seq<Text>

    ghost predicate Valid()
      reads this
    {
      out == Frames(parts)
    }

    constructor (tag: Text)
      ensures Valid() && parts == [tag]
    {
      out := [];
      parts := [];
      new;
      Add(tag);
    }

    method Add(part: Text)
      requires Valid()
      modifies this
      ensures Valid() && parts == old(parts) + [part]
    {
      hide Frames, BigEndian, FromBigEndian;
      var length := new Byte[8];
      WriteUint64(length, |part|);
      ghost var before, size := out, length[..];
      out := out + length[..];
      out := out + part;
      assert out == before + (size + part);
      FramesOfSnoc(parts, part);
      parts := parts + [part];
    }
  }
}
