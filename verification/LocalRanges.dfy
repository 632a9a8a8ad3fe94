/** The local addresses, by the address blocks their standards name. */
module LocalRanges {
  import opened AddressBits
  import opened TrustedProxies

  /** Section 3 of RFC 1918, section 3.2.1.3 (g) of RFC 1122 and section 2.1 of RFC 3927. */
  const BLOCKS_4: set<Prefix> := {
    Prefix([127, 0, 0, 0], 8), Prefix([10, 0, 0, 0], 8), Prefix([172, 16, 0, 0], 12), Prefix([192, 168, 0, 0], 16),
    Prefix([169, 254, 0, 0], 16)}

  const ZEROS_14: Octets := [0, 0, 0, 0, 0, 0, 0, 0, 0, 0, 0, 0, 0, 0]

  /** Section 2.5.3 of RFC 4291, section 3.1 of RFC 4193 and section 2.5.6 of RFC 4291. */
  const BLOCKS_6: set<Prefix> := {
    Prefix(ZEROS_14 + [0, 1], 128), Prefix([0xFC, 0] + ZEROS_14, 7), Prefix([0xFE, 0x80] + ZEROS_14, 10)}

  /** An address is in a block exactly when every octet agrees on the bits the block fixes. */
  lemma ContainsByOctets(p: Prefix, a: Octets)
    requires WellFormed(p) && |a| == |p.addr|
    ensures Contains(p, a) <==>
            forall j | 0 <= j < |a| :: Clear(a[j], Share(p.bits, j)) == Clear(p.addr[j], Share(p.bits, j))
  {
    hide Bit, Clear;
    if Contains(p, a) {
      forall j | 0 <= j < |a|
        ensures Clear(a[j], Share(p.bits, j)) == Clear(p.addr[j], Share(p.bits, j))
      {
        OctetCleared(p, a, j);
      }
    } else {
      var i: nat :| i < p.bits && i < 8 * |a| && (BitAt(a, i) <==> !BitAt(p.addr, i));
      var j, r := i / 8, i % 8;
      ClearBits(a[j], Share(p.bits, j), r);
      ClearBits(p.addr[j], Share(p.bits, j), r);
      assert Clear(a[j], Share(p.bits, j)) != Clear(p.addr[j], Share(p.bits, j));
    }
  }

  lemma LeadingValues()
    ensures Leading(0) == 0 && Leading(2) == 0xC0 && Leading(4) == 0xF0 && Leading(7) == 0xFE && Leading(8) == 0xFF
  {
    assert Leading(1) == 0x80;
    assert Leading(2) == 0xC0;
    assert Leading(3) == 0xE0;
    assert Leading(4) == 0xF0;
    assert Leading(5) == 0xF8;
    assert Leading(6) == 0xFC;
    assert Leading(7) == 0xFE;
  }

  lemma ClearWhole(b: bv8)
    ensures Clear(b, 8) == b && Clear(b, 0) == 0 && Clear(b, 4) == b & 0xF0 && Clear(b, 7) == b & 0xFE
    ensures Clear(b, 2) == b & 0xC0
  {
    hide Leading;
    LeadingValues();
  }

  /** The octets of an IPv4 block that is fixed to a whole octet or a half. */
  lemma In4(p: Prefix, a: Octets)
    requires |p.addr| == 4 && |a| == 4 && (p.bits == 8 || p.bits == 12 || p.bits == 16)
    ensures Contains(p, a) <==>
            && a[0] == p.addr[0]
            && (p.bits == 12 ==> a[1] & 0xF0 == p.addr[1] & 0xF0) && (p.bits == 16 ==> a[1] == p.addr[1])
  {
    hide Clear, Contains;
    ContainsByOctets(p, a);
    ClearWhole(a[0]);
    ClearWhole(a[1]);
    ClearWhole(a[2]);
    ClearWhole(a[3]);
    ClearWhole(p.addr[0]);
    ClearWhole(p.addr[1]);
    ClearWhole(p.addr[2]);
    ClearWhole(p.addr[3]);
  }

  lemma LocalBlocks4(a: Octets)
    requires |a| == 4
    ensures Local4(a[0], a[1]) <==> exists p | p in BLOCKS_4 :: Contains(p, a)
  {
    hide Contains;
    In4(Prefix([127, 0, 0, 0], 8), a);
    In4(Prefix([10, 0, 0, 0], 8), a);
    In4(Prefix([172, 16, 0, 0], 12), a);
    In4(Prefix([192, 168, 0, 0], 16), a);
    In4(Prefix([169, 254, 0, 0], 16), a);
    assert Prefix([127, 0, 0, 0], 8) in BLOCKS_4 && Prefix([10, 0, 0, 0], 8) in BLOCKS_4;
    assert Prefix([172, 16, 0, 0], 12) in BLOCKS_4 && Prefix([192, 168, 0, 0], 16) in BLOCKS_4;
    assert Prefix([169, 254, 0, 0], 16) in BLOCKS_4;
  }

  /** The octets of an IPv6 block that is fixed in the first two octets only. */
  lemma In6(p: Prefix, a: Octets)
    requires |p.addr| == 16 && |a| == 16 && (p.bits == 7 || p.bits == 10)
    ensures Contains(p, a) <==>
            if p.bits == 7 then a[0] & 0xFE == p.addr[0] & 0xFE
            else a[0] == p.addr[0] && a[1] & 0xC0 == p.addr[1] & 0xC0
  {
    hide Clear, Contains;
    ContainsByOctets(p, a);
    forall j | 2 <= j < 16
      ensures Clear(a[j], Share(p.bits, j)) == Clear(p.addr[j], Share(p.bits, j))
    {
      ClearWhole(a[j]);
      ClearWhole(p.addr[j]);
    }
    ClearWhole(a[0]);
    ClearWhole(a[1]);
    ClearWhole(p.addr[0]);
    ClearWhole(p.addr[1]);
  }

  lemma InLoopback(a: Octets)
    requires |a| == 16
    ensures Contains(Prefix(ZEROS_14 + [0, 1], 128), a) <==> Loopback6(a)
  {
    hide Clear, Contains;
    var p := Prefix(ZEROS_14 + [0, 1], 128);
    ContainsByOctets(p, a);
    forall j | 0 <= j < 16
      ensures Clear(a[j], Share(p.bits, j)) == a[j]
      ensures Clear(p.addr[j], Share(p.bits, j)) == if j == 15 then 1 else 0
    {
      ClearWhole(a[j]);
      ClearWhole(p.addr[j]);
    }
  }

  lemma LocalBlocks6(a: Octets)
    requires |a| == 16
    ensures Loopback6(a) || Local6(a[0], a[1]) <==> exists p | p in BLOCKS_6 :: Contains(p, a)
  {
    hide Contains, Loopback6;
    InLoopback(a);
    In6(Prefix([0xFC, 0] + ZEROS_14, 7), a);
    In6(Prefix([0xFE, 0x80] + ZEROS_14, 10), a);
    assert Prefix(ZEROS_14 + [0, 1], 128) in BLOCKS_6 && Prefix([0xFC, 0] + ZEROS_14, 7) in BLOCKS_6;
    assert Prefix([0xFE, 0x80] + ZEROS_14, 10) in BLOCKS_6;
  }

  /** An address is local if and only if it, or the IPv4 address mapped into it, lies in one of the blocks. */
  lemma LocalIsInBlocks(a: Octets)
    requires |a| == 4 || |a| == 16
    ensures
      var plain := if Mapped4(a) then a[12..] else a;
      Local(a) <==> exists p | p in (if |plain| == 4 then BLOCKS_4 else BLOCKS_6) :: Contains(p, plain)
  {
    hide Contains, Local4, Local6, Loopback6;
    if |a| == 4 {
      LocalBlocks4(a);
    } else if Mapped4(a) {
      LocalBlocks4(a[12..]);
    } else {
      LocalBlocks6(a);
    }
  }
}
