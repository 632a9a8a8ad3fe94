/** The bits of addresses, numbered from the most significant one. */
module AddressBits {
  type Octets = seq<bv8>

  /** The byte with only the r-th bit set. */
  function Single(r: nat): bv8
    requires r < 8
  {
    if r == 0 then 0x80 else if r == 1 then 0x40 else if r == 2 then 0x20 else if r == 3 then 0x10
    else if r == 4 then 0x08 else if r == 5 then 0x04 else if r == 6 then 0x02 else 0x01
  }

  /** The byte with its first k bits set. */
  function Leading(k: nat): bv8
    requires k <= 8
  {
    if k == 0 then 0 else Leading(k - 1) | Single(k - 1)
  }

  predicate Bit(b: bv8, r: nat)
    requires r < 8
  {
    b & Single(r) != 0
  }

  predicate BitAt(a: Octets, i: nat)
    requires i < 8 * |a|
  {
    Bit(a[i / 8], i % 8)
  }

  lemma SetOneBit(b: bv8, r: nat, s: nat)
    requires r < 8 && s < 8
    ensures Bit(b | Single(r), s) <==> s == r || Bit(b, s)
  {
    if r == s {
      if r == 0 { } else if r == 1 { } else if r == 2 { } else if r == 3 { }
    } else {
      SinglesDisjoint(r, s);
      var x, y := Single(r), Single(s);
      assert x & y == 0 ==> (b | x) & y == b & y;
    }
  }

  lemma SinglesDisjoint(r: nat, s: nat)
    requires r < 8 && s < 8 && r != s
    ensures Single(r) & Single(s) == 0
  {
  }

  /** Bytes that agree on every bit are equal. */
  lemma BitsDetermine(b: bv8, c: bv8)
    requires forall r | 0 <= r < 8 :: Bit(b, r) <==> Bit(c, r)
    ensures b == c
  {
    assert Bit(b, 0) <==> Bit(c, 0);
    assert Bit(b, 1) <==> Bit(c, 1);
    assert Bit(b, 2) <==> Bit(c, 2);
    assert Bit(b, 3) <==> Bit(c, 3);
    assert Bit(b, 4) <==> Bit(c, 4);
    assert Bit(b, 5) <==> Bit(c, 5);
    assert Bit(b, 6) <==> Bit(c, 6);
    assert Bit(b, 7) <==> Bit(c, 7);
  }

  lemma {:induction false} LeadingBits(k: nat, r: nat)
    requires k <= 8 && r < 8
    ensures Bit(Leading(k), r) <==> r < k
  {
    if k > 0 {
      LeadingBits(k - 1, r);
      SetOneBit(Leading(k - 1), k - 1, r);
    }
  }

  lemma BitsOfOr(b: bv8, c: bv8, r: nat)
    requires r < 8
    ensures Bit(b | c, r) <==> Bit(b, r) || Bit(c, r)
  {
    hide Single;
    var x := Single(r);
    assert (b | c) & x == (b & x) | (c & x);
  }

  lemma BitsOfAnd(b: bv8, c: bv8, r: nat)
    requires r < 8
    ensures Bit(b & c, r) <==> Bit(b, r) && Bit(c, r)
  {
  }

  lemma BitsOfNot(b: bv8, r: nat)
    requires r < 8
    ensures Bit(!b, r) <==> !Bit(b, r)
  {
  }

  /** A byte with its bits from the k-th on cleared, or set. */
  function Clear(b: bv8, k: nat): bv8
    requires k <= 8
  {
    b & Leading(k)
  }

  function Fill(b: bv8, k: nat): bv8
    requires k <= 8
  {
    b | !Leading(k)
  }

  lemma ClearBits(b: bv8, k: nat, r: nat)
    requires k <= 8 && r < 8
    ensures Bit(Clear(b, k), r) <==> r < k && Bit(b, r)
  {
    hide Bit, Leading, Single;
    LeadingBits(k, r);
    BitsOfAnd(b, Leading(k), r);
  }

  lemma FillBits(b: bv8, k: nat, r: nat)
    requires k <= 8 && r < 8
    ensures Bit(Fill(b, k), r) <==> r >= k || Bit(b, r)
  {
    hide Bit, Leading, Single;
    LeadingBits(k, r);
    BitsOfNot(Leading(k), r);
    BitsOfOr(b, !Leading(k), r);
  }

  /** Bytes whose first k bits agree are the same once the others are cleared. */
  lemma AgreeWhenCleared(b: bv8, c: bv8, k: nat)
    requires k <= 8 && forall r | 0 <= r < k :: Bit(b, r) <==> Bit(c, r)
    ensures Clear(b, k) == Clear(c, k)
  {
    hide Bit, Clear;
    var x, y := Clear(b, k), Clear(c, k);
    forall r | 0 <= r < 8
      ensures Bit(x, r) <==> Bit(y, r)
    {
      ClearBits(b, k, r);
      ClearBits(c, k, r);
    }
    BitsDetermine(x, y);
  }

  lemma ClearedBounds(b: bv8, x: bv8, k: nat)
    requires k <= 8 && Clear(x, k) == Clear(b, k)
    ensures Clear(b, k) <= x <= Fill(b, k)
  {
    hide Leading;
    var mask := Leading(k);
    assert x & mask == b & mask;
  }

  /** A mask: its clear bits are the low ones. */
  lemma LeadingShape(k: nat)
    requires k <= 8
    ensures !Leading(k) & (!Leading(k) + 1) == 0
    ensures k == 8 <==> Leading(k) == 0xFF
    ensures k == 0 <==> Leading(k) == 0
    ensures k < 8 ==> Leading(k) & 1 == 0
  {
    assert Leading(1) == 0x80;
    assert Leading(2) == 0xC0;
    assert Leading(3) == 0xE0;
    assert Leading(4) == 0xF0;
    assert Leading(5) == 0xF8;
    assert Leading(6) == 0xFC;
    assert Leading(7) == 0xFE;
    assert Leading(8) == 0xFF;
  }

  lemma SetBitAt(a: Octets, i: nat, k: nat)
    requires i < 8 * |a| && k < 8 * |a|
    ensures BitAt(a[i / 8 := a[i / 8] | Single(i % 8)], k) <==> k == i || BitAt(a, k)
  {
    hide Bit, Single;
    SetOneBit(a[i / 8], i % 8, k % 8);
    assert k == i <==> k / 8 == i / 8 && k % 8 == i % 8;
  }

  lemma OctetsDetermined(a: Octets, b: Octets)
    requires |a| == |b| && forall i | 0 <= i < 8 * |a| :: BitAt(a, i) <==> BitAt(b, i)
    ensures a == b
  {
    hide Bit;
    forall j | 0 <= j < |a|
      ensures a[j] == b[j]
    {
      forall r | 0 <= r < 8
        ensures Bit(a[j], r) <==> Bit(b[j], r)
      {
        assert BitAt(a, 8 * j + r) <==> BitAt(b, 8 * j + r);
      }
      BitsDetermine(a[j], b[j]);
    }
  }
}

/** The address ranges a self-hosted server accepts as its reverse proxies. */
module TrustedProxies {
  import opened Basics
  import opened AddressBits
  import opened Texts

  /** A range as parsed: four or sixteen octets and the number of leading bits that are fixed. */
  datatype Prefix = Prefix(addr: Octets, bits: nat)

  predicate WellFormed(p: Prefix) {
    (|p.addr| == 4 || |p.addr| == 16) && p.bits <= 8 * |p.addr|
  }

  /** The addresses of the range: those that agree with it on the fixed bits. */
  ghost predicate Contains(p: Prefix, a: Octets) {
    |a| == |p.addr| && forall i | 0 <= i < p.bits && i < 8 * |a| :: BitAt(a, i) <==> BitAt(p.addr, i)
  }

  // ---------------------------------------------------------------------------------------------
  // The two endpoints

  /** How many leading bits of the j-th octet are fixed. */
  function Share(bits: nat, j: nat): (k: nat)
    ensures k <= 8
  {
    if bits <= 8 * j then 0 else if bits >= 8 * j + 8 then 8 else bits - 8 * j
  }

  function Masked(p: Prefix): (m: Prefix)
    ensures |m.addr| == |p.addr| && m.bits == p.bits
    ensures forall j | 0 <= j < |p.addr| :: m.addr[j] == Clear(p.addr[j], Share(p.bits, j))
  {
    Prefix(seq(|p.addr|, j requires 0 <= j < |p.addr| => Clear(p.addr[j], Share(p.bits, j))), p.bits)
  }

  function Filled(p: Prefix): (last: Octets)
    ensures |last| == |p.addr|
    ensures forall j | 0 <= j < |p.addr| :: last[j] == Fill(p.addr[j], Share(p.bits, j))
  {
    seq(|p.addr|, j requires 0 <= j < |p.addr| => Fill(p.addr[j], Share(p.bits, j)))
  }

  /** The first address has the free bits clear, the last has them set. */
  lemma EndpointBits(p: Prefix, i: nat)
    requires i < 8 * |p.addr|
    ensures BitAt(Masked(p).addr, i) <==> i < p.bits && BitAt(p.addr, i)
    ensures BitAt(Filled(p), i) <==> i >= p.bits || BitAt(p.addr, i)
  {
    hide Bit, Clear, Fill;
    var j, r := i / 8, i % 8;
    ClearBits(p.addr[j], Share(p.bits, j), r);
    FillBits(p.addr[j], Share(p.bits, j), r);
  }

  /** The endpoints belong to the range, and octet by octet bound every address of it. */
  lemma EndpointsBound(p: Prefix, a: Octets)
    requires WellFormed(p) && Contains(p, a)
    ensures Contains(p, Masked(p).addr) && Contains(p, Filled(p))
    ensures forall j | 0 <= j < |a| :: Masked(p).addr[j] <= a[j] <= Filled(p)[j]
  {
    hide Clear, Fill, BitAt;
    forall i | 0 <= i < 8 * |a|
      ensures BitAt(Masked(p).addr, i) <==> i < p.bits && BitAt(p.addr, i)
      ensures BitAt(Filled(p), i) <==> i >= p.bits || BitAt(p.addr, i)
    {
      EndpointBits(p, i);
    }
    forall j | 0 <= j < |a|
      ensures Masked(p).addr[j] <= a[j] <= Filled(p)[j]
    {
      OctetCleared(p, a, j);
      ClearedBounds(p.addr[j], a[j], Share(p.bits, j));
    }
  }

  lemma OctetCleared(p: Prefix, a: Octets, j: nat)
    requires Contains(p, a) && j < |a|
    ensures Clear(a[j], Share(p.bits, j)) == Clear(p.addr[j], Share(p.bits, j))
  {
    hide Bit, Clear;
    var k := Share(p.bits, j);
    forall r | 0 <= r < k
      ensures Bit(a[j], r) <==> Bit(p.addr[j], r)
    {
      assert BitAt(a, 8 * j + r) <==> BitAt(p.addr, 8 * j + r);
    }
    AgreeWhenCleared(a[j], p.addr[j], k);
  }

  function As16(a: Octets): (b: Octets)
    requires |a| == 4 || |a| == 16
    ensures |b| == 16
  {
    if |a| == 4 then [0, 0, 0, 0, 0, 0, 0, 0, 0, 0, 0xFF, 0xFF] + a else a
  }

  /** Where the bits of an address start in its sixteen-octet form. */
  function Offset(a: Octets): nat {
    if |a| == 4 then 96 else 0
  }

  lemma FilledWhole(p: Prefix, raw: Octets)
    requires WellFormed(p) && |raw| == 16
    requires forall i | 0 <= i < 128 :: BitAt(raw, i) <==> Offset(p.addr) + p.bits <= i || BitAt(As16(p.addr), i)
    ensures raw[Offset(p.addr) / 8..] == Filled(p)
  {
    hide BitAt, Filled, As16;
    var last, whole, offset := raw[Offset(p.addr) / 8..], As16(p.addr), Offset(p.addr);
    As16Tail(p.addr);
    forall i | 0 <= i < 8 * |p.addr|
      ensures BitAt(last, i) <==> BitAt(Filled(p), i)
    {
      EndpointBits(p, i);
      TailBit(raw, offset / 8, i);
      TailBit(whole, offset / 8, i);
    }
    OctetsDetermined(last, Filled(p));
  }

  lemma As16Tail(a: Octets)
    requires |a| == 4 || |a| == 16
    ensures As16(a)[Offset(a) / 8..] == a
  {
  }

  lemma TailBit(a: Octets, j: nat, i: nat)
    requires j <= |a| && i < 8 * (|a| - j)
    ensures BitAt(a[j..], i) <==> BitAt(a, i + 8 * j)
  {
    hide Bit;
    assert (i + 8 * j) / 8 == i / 8 + j && (i + 8 * j) % 8 == i % 8;
  }

  /** Sets the free bits one at a time. */
  method LastAddress(p: Prefix) returns (last: Octets)
    requires WellFormed(p)
    ensures last == Filled(p)
  {
    hide BitAt, Single, Filled, As16;
    var whole := As16(p.addr);
    var raw := new bv8[16](i requires 0 <= i < 16 => whole[i]);
    assert raw[..] == whole;
    var start := p.bits;
    if |p.addr| == 4 {
      start := start + 96;
    }
    for bit := start to 128
      invariant forall i | 0 <= i < 128 :: BitAt(raw[..], i) <==> start <= i < bit || BitAt(whole, i)
    {
      ghost var before := raw[..];
      raw[bit / 8] := raw[bit / 8] | Single(bit % 8);
      assert raw[..] == before[bit / 8 := before[bit / 8] | Single(bit % 8)];
      forall i | 0 <= i < 128
        ensures BitAt(raw[..], i) <==> i == bit || BitAt(before, i)
      {
        SetBitAt(before, bit, i);
      }
    }
    FilledWhole(p, raw[..]);
    if |p.addr| == 4 {
      assert raw[12..] == raw[..][12..];
      return raw[12..];
    }
    assert raw[..] == raw[..][0..];
    return raw[..];
  }

  // ---------------------------------------------------------------------------------------------
  // Local addresses

  /** 127/8, the blocks 10/8, 172.16/12 and 192.168/16 of RFC 1918, and 169.254/16, by the first two octets. */
  predicate Local4(x: bv8, y: bv8) {
    x == 127 || x == 10 || (x == 172 && y & 0xF0 == 16) || (x == 192 && y == 168) || (x == 169 && y == 254)
  }

  /** The block fc00::/7 of RFC 4193 and fe80::/10 of RFC 4291, by the first two octets. */
  predicate Local6(x: bv8, y: bv8) {
    x & 0xFE == 0xFC || (x == 0xFE && y & 0xC0 == 0x80)
  }

  predicate Mapped4(a: Octets) {
    |a| == 16 && (forall j | 0 <= j < 10 :: a[j] == 0) && a[10] == 0xFF && a[11] == 0xFF
  }

  predicate Loopback6(a: Octets) {
    |a| == 16 && (forall j | 0 <= j < 15 :: a[j] == 0) && a[15] == 1
  }

  /** Loopback, private or link-local; an IPv4-mapped address counts as the IPv4 address. */
  predicate Local(a: Octets)
    requires |a| == 4 || |a| == 16
  {
    if |a| == 4 then Local4(a[0], a[1])
    else if Mapped4(a) then Local4(a[12], a[13])
    else Loopback6(a) || Local6(a[0], a[1])
  }

  /** The check on a parsed range: its two endpoints. */
  predicate Accepted(p: Prefix)
    requires WellFormed(p)
  {
    !Mapped4(Masked(p).addr) && Local(Masked(p).addr) && Local(Filled(Masked(p)))
  }

  /** The first j + 1 octets of a range: when octet j + 1 is fixed in part, octet j is fixed entirely. */
  lemma SharesDescend(bits: nat)
    ensures Share(bits, 1) == 0 || Share(bits, 0) == 8
  {
  }

  lemma Between4(f: bv8, g: bv8, x: bv8, y: bv8, j: nat, k: nat)
    requires j <= 8 && k <= 8 && (k == 0 || j == 8)
    requires Clear(x, j) == f && Clear(y, k) == g
    requires Local4(f, g) && Local4(Fill(f, j), Fill(g, k))
    ensures Local4(x, y)
  {
    hide Leading;
    LeadingShape(j);
    LeadingShape(k);
  }

  lemma Between6(f: bv8, g: bv8, x: bv8, y: bv8, j: nat, k: nat)
    requires j <= 8 && k <= 8 && (k == 0 || j == 8)
    requires Clear(x, j) == f && Clear(y, k) == g
    requires Local6(f, g) && Local6(Fill(f, j), Fill(g, k))
    ensures Local6(x, y)
  {
    hide Leading;
    LeadingShape(j);
    LeadingShape(k);
  }

  /** Every address of an accepted range is local, although only the two endpoints were looked at. */
  lemma EveryAddressIsLocal(p: Prefix, a: Octets)
    requires WellFormed(p) && Accepted(p) && Contains(p, a)
    ensures Local(a)
  {
    hide Clear, Fill, BitAt, Local4, Local6;
    var f, l := Masked(p).addr, Filled(Masked(p));
    OctetCleared(p, a, 0);
    OctetCleared(p, a, 1);
    SharesDescend(p.bits);
    var j, k := Share(p.bits, 0), Share(p.bits, 1);
    if |a| == 4 {
      Between4(f[0], f[1], a[0], a[1], j, k);
    } else if Loopback6(f) {
      LoopbackIsAlone(p, a);
    } else {
      HighOctets(f[0], f[1], j, k);
      Between6(f[0], f[1], a[0], a[1], j, k);
      NotZero(a[0], a[1]);
    }
  }

  /** The masked range has the same addresses. */
  lemma MaskedContains(p: Prefix, a: Octets)
    requires WellFormed(p) && Contains(Masked(p), a)
    ensures Contains(p, a)
  {
    hide BitAt, Masked;
    forall i | 0 <= i < p.bits && i < 8 * |a|
      ensures BitAt(a, i) <==> BitAt(p.addr, i)
    {
      EndpointBits(p, i);
    }
  }

  /** The check on the endpoints is exact: it passes if and only if every address of the range is local, except that
      ranges given in IPv4-mapped form are refused. */
  lemma AcceptedIff(p: Prefix)
    requires WellFormed(p)
    ensures Accepted(p) <==> !Mapped4(Masked(p).addr) && forall a | Contains(p, a) :: Local(a)
  {
    hide BitAt, Masked, Filled, Local, Mapped4;
    if Accepted(p) {
      forall a | Contains(p, a)
        ensures Local(a)
      {
        EveryAddressIsLocal(p, a);
      }
    } else {
      EndpointsBound(p, p.addr);
      var m := Masked(p);
      EndpointsBound(m, m.addr);
      MaskedContains(p, Filled(m));
    }
  }

  /** Filling octets of a local address that is not the loopback address leaves them other than zero. */
  lemma HighOctets(f: bv8, g: bv8, j: nat, k: nat)
    requires j <= 8 && k <= 8 && Local6(f, g)
    ensures Fill(f, j) != 0
  {
    hide Leading;
    var rest := !Leading(j);
    assert f != 0;
  }

  lemma NotZero(x: bv8, y: bv8)
    requires Local6(x, y)
    ensures x != 0
  {
  }

  /** A range that starts at the loopback address holds nothing else. */
  lemma LoopbackIsAlone(p: Prefix, a: Octets)
    requires WellFormed(p) && Loopback6(Masked(p).addr) && Contains(p, a)
    ensures a == Masked(p).addr
  {
    hide BitAt, Leading;
    LastBitFixed(p.addr[15], Share(p.bits, 15));
    forall j | 0 <= j < 16
      ensures a[j] == Masked(p).addr[j]
    {
      OctetCleared(p, a, j);
      ClearNothing(a[j]);
    }
  }

  lemma LastBitFixed(b: bv8, k: nat)
    requires k <= 8 && Clear(b, k) == 1
    ensures k == 8
  {
    hide Leading;
    LeadingShape(k);
    var mask := Leading(k);
    assert mask & 1 == 0 ==> (b & mask) & 1 == 0;
  }

  lemma ClearNothing(b: bv8)
    ensures Clear(b, 8) == b
  {
    hide Leading;
    LeadingShape(8);
  }

  // ---------------------------------------------------------------------------------------------
  // The setting

  /** How wide a range may be before the operator is warned. */
  predicate TooWide(p: Prefix)
    requires WellFormed(p)
  {
    var loopback := if |p.addr| == 4 then p.addr[0] == 127 else Loopback6(p.addr);
    !loopback && p.bits < (if |p.addr| == 4 then 24 else 64)
  }

  predicate Acceptable(parse: Bytes -> Option<Prefix>, text: Bytes) {
    var range := parse(Trim(text));
    range.Some? && WellFormed(range.value) && Accepted(range.value)
  }

  predicate AllAcceptable(parse: Bytes -> Option<Prefix>, parts: seq<Bytes>) {
    forall i | 0 <= i < |parts| :: Acceptable(parse, parts[i])
  }

  /** Reads a comma-separated list of ranges. It succeeds exactly when each trimmed part parses to a range whose
      endpoints pass, and then every address of every range is local. */
  method ParseTrustedProxies(parse: Bytes -> Option<Prefix>, value: Bytes)
    returns (r: Option<(seq<Prefix>, seq<Prefix>)>)
    requires forall text :: parse(text).Some? ==> WellFormed(parse(text).value)
    ensures Blank(value) ==> r == Some(([], []))
    ensures !Blank(value) ==> (r.Some? <==> AllAcceptable(parse, Split(value, 44)))
    ensures r.Some? && !Blank(value) ==>
              && |r.value.0| == |Split(value, 44)|
              && forall i | 0 <= i < |r.value.0| :: Some(r.value.0[i]) == MaskedRange(parse(Trim(Split(value, 44)[i])))
    ensures r.Some? ==> forall p | p in r.value.0 :: WellFormed(p) && (TooWide(p) <==> p in r.value.1)
    ensures r.Some? ==> forall p, a | p in r.value.0 && WellFormed(p) && Contains(p, a) :: Local(a)
  {
    hide BitAt, Accepted, Local, TooWide, Masked, Filled, Mapped4, Trim, Split;
    TrimIsEmpty(value);
    if Trim(value) == [] {
      return Some(([], []));
    }
    var parts := Split(value, 44);
    var prefixes: seq<Prefix> := [];
    var wide: seq<Prefix> := [];
    for i := 0 to |parts|
      invariant |prefixes| == i
      invariant forall k | 0 <= k < i ::
                Acceptable(parse, parts[k]) && Some(prefixes[k]) == MaskedRange(parse(Trim(parts[k])))
      invariant forall p | p in prefixes :: WellFormed(p) && Accepted(p) && (TooWide(p) <==> p in wide)
      invariant forall p | p in wide :: p in prefixes
    {
      var range := parse(Trim(parts[i]));
      if range.None? {
        assert !Acceptable(parse, parts[i]);
        return None;
      }
      var p := Masked(range.value);
      MaskedTwice(range.value);
      AcceptedMeans(range.value);
      if Mapped4(p.addr) || !Local(p.addr) {
        assert !Acceptable(parse, parts[i]);
        return None;
      }
      var last := LastAddress(p);
      if !Local(last) {
        assert !Acceptable(parse, parts[i]);
        return None;
      }
      if TooWide(p) {
        wide := wide + [p];
      }
      prefixes := prefixes + [p];
    }
    forall p, a | p in prefixes && WellFormed(p) && Contains(p, a)
      ensures Local(a)
    {
      EveryAddressIsLocal(p, a);
    }
    return Some((prefixes, wide));
  }

  function MaskedRange(range: Option<Prefix>): Option<Prefix> {
    match range
    case None => None
    case Some(p) => Some(Masked(p))
  }

  lemma AcceptedMeans(p: Prefix)
    requires WellFormed(p)
    ensures Accepted(p) <==> !Mapped4(Masked(p).addr) && Local(Masked(p).addr) && Local(Filled(Masked(p)))
  {
  }

  /** Masking a masked range changes nothing, so the check passes or fails for both alike. */
  lemma MaskedTwice(p: Prefix)
    requires WellFormed(p)
    ensures WellFormed(Masked(p)) && Masked(Masked(p)) == Masked(p)
    ensures Accepted(Masked(p)) <==> Accepted(p)
  {
    hide Clear, Fill, Local;
    forall j | 0 <= j < |p.addr|
      ensures Clear(Clear(p.addr[j], Share(p.bits, j)), Share(p.bits, j)) == Clear(p.addr[j], Share(p.bits, j))
    {
      ClearTwice(p.addr[j], Share(p.bits, j));
    }
    assert Masked(Masked(p)).addr == Masked(p).addr;
  }

  lemma ClearTwice(b: bv8, k: nat)
    requires k <= 8
    ensures Clear(Clear(b, k), k) == Clear(b, k)
  {
    hide Leading;
  }
}
