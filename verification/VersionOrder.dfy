/** The order of release versions, against section 11 of Semantic Versioning 2.0.0. */
module VersionOrder {
  import opened Basics
  import opened Canonical
  import opened SemVer
  import Lexicographic

  // ---------------------------------------------------------------------------------------------
  // The comparison

  function CompareText(a: Bytes, b: Bytes): int {
    Lexicographic.Compare((x: Byte, y: Byte) => Lexicographic.CompareNat(x, y), a, b)
  }

  function CompareIdentifier(a: Identifier, b: Identifier): int {
    if a.numeric && b.numeric then Lexicographic.CompareNat(a.number, b.number)
    else if a.numeric != b.numeric then (if a.numeric then -1 else 1)
    else CompareText(a.raw, b.raw)
  }

  function CompareCore(v: Version, w: Version): int {
    Lexicographic.Compare(Lexicographic.CompareNat, v.Core(), w.Core())
  }

  function ComparePrerelease(p: seq<Identifier>, q: seq<Identifier>): int {
    if p == [] && q != [] then 1
    else if p != [] && q == [] then -1
    else Lexicographic.Compare(CompareIdentifier, p, q)
  }

  function Compare(v: Version, w: Version): int {
    var core := CompareCore(v, w);
    if core != 0 then core else ComparePrerelease(v.prerelease, w.prerelease)
  }

  /** The scan over the two identifier lists, from `index` on, decides the comparison. */
  method CompareVersions(v: Version, w: Version) returns (sign: int)
    ensures sign == Compare(v, w)
  {
    hide CompareText;
    var left, right := v.Core(), w.Core();
    for i := 0 to 3
      invariant CompareCore(v, w) == Lexicographic.Compare(Lexicographic.CompareNat, left[i..], right[i..])
    {
      if left[i] < right[i] {
        return -1;
      }
      if left[i] > right[i] {
        return 1;
      }
      assert left[i..][1..] == left[i + 1..] && right[i..][1..] == right[i + 1..];
    }
    var p, q := v.prerelease, w.prerelease;
    if |p| == 0 && |q| > 0 {
      return 1;
    }
    if |p| > 0 && |q| == 0 {
      return -1;
    }
    var index := 0;
    while index < |p| && index < |q|
      invariant 0 <= index <= |p| && index <= |q|
      invariant Compare(v, w) == Lexicographic.Compare(CompareIdentifier, p[index..], q[index..])
    {
      var a, b := p[index], q[index];
      assert p[index..][1..] == p[index + 1..] && q[index..][1..] == q[index + 1..];
      if a.numeric && b.numeric {
        if a.number < b.number {
          return -1;
        }
        if a.number > b.number {
          return 1;
        }
      } else if a.numeric != b.numeric {
        if a.numeric {
          return -1;
        }
        return 1;
      } else {
        var text := CompareText(a.raw, b.raw);
        if text != 0 {
          return text;
        }
      }
      index := index + 1;
    }
    if |p| < |q| {
      return -1;
    }
    if |p| > |q| {
      return 1;
    }
    return 0;
  }

  // ---------------------------------------------------------------------------------------------
  // A total preorder

  lemma TextPreorder()
    ensures Lexicographic.Preorder(CompareText)
  {
    var order := (x: Byte, y: Byte) => Lexicographic.CompareNat(x, y);
    Lexicographic.IsPreorder(order);
    assert Lexicographic.Preorder((a, b) => Lexicographic.Compare(order, a, b));
    assert forall a, b :: CompareText(a, b) == ((a, b) => Lexicographic.Compare(order, a, b))(a, b);
  }

  lemma IdentifierPreorder()
    ensures Lexicographic.Preorder(CompareIdentifier)
  {
    hide CompareText;
    TextPreorder();
    forall x: Identifier, y: Identifier
      ensures CompareIdentifier(x, y) < 0 <==> CompareIdentifier(y, x) > 0
    {
      assert CompareText(x.raw, y.raw) < 0 <==> CompareText(y.raw, x.raw) > 0;
    }
    forall x: Identifier, y: Identifier, z: Identifier | CompareIdentifier(x, y) <= 0 && CompareIdentifier(y, z) <= 0
      ensures CompareIdentifier(x, z) <= 0
    {
      assert CompareText(x.raw, y.raw) <= 0 && CompareText(y.raw, z.raw) <= 0 ==> CompareText(x.raw, z.raw) <= 0;
    }
  }

  /** Swapping the versions swaps the sign, and the order is transitive: on all versions, whatever their identifiers. */
  lemma CompareIsPreorder()
    ensures Lexicographic.Preorder(Compare)
  {
    hide CompareCore, ComparePrerelease, CompareIdentifier;
    forall v: Version, w: Version
      ensures Compare(v, w) < 0 <==> Compare(w, v) > 0
    {
      CoreAntisymmetric(v, w);
      CoreAntisymmetric(w, v);
      PrereleaseAntisymmetric(v.prerelease, w.prerelease);
      PrereleaseAntisymmetric(w.prerelease, v.prerelease);
    }
    forall u: Version, v: Version, w: Version | Compare(u, v) <= 0 && Compare(v, w) <= 0
      ensures Compare(u, w) <= 0
    {
      CompareTransitive(u, v, w);
    }
  }

  lemma CoreAntisymmetric(v: Version, w: Version)
    ensures CompareCore(v, w) < 0 <==> CompareCore(w, v) > 0
  {
    Lexicographic.Antisymmetric(Lexicographic.CompareNat, v.Core(), w.Core());
  }

  lemma PrereleaseAntisymmetric(p: seq<Identifier>, q: seq<Identifier>)
    ensures ComparePrerelease(p, q) < 0 <==> ComparePrerelease(q, p) > 0
  {
    hide CompareIdentifier;
    IdentifierPreorder();
    Lexicographic.Antisymmetric(CompareIdentifier, p, q);
  }

  lemma PrereleaseTransitive(p: seq<Identifier>, q: seq<Identifier>, r: seq<Identifier>)
    requires ComparePrerelease(p, q) <= 0 && ComparePrerelease(q, r) <= 0
    ensures ComparePrerelease(p, r) <= 0
  {
    hide CompareIdentifier;
    IdentifierPreorder();
    if p != [] && q != [] && r != [] {
      Lexicographic.Transitive(CompareIdentifier, p, q, r);
    }
  }

  lemma CompareTransitive(u: Version, v: Version, w: Version)
    requires Compare(u, v) <= 0 && Compare(v, w) <= 0
    ensures Compare(u, w) <= 0
  {
    hide CompareCore, ComparePrerelease;
    assert CompareCore(u, v) <= 0 && CompareCore(v, w) <= 0;
    CoreTransitive(u, v, w);
    if CompareCore(u, w) == 0 {
      CoreZero(u, v, w);
      PrereleaseTransitive(u.prerelease, v.prerelease, w.prerelease);
    }
  }

  lemma CoreTransitive(u: Version, v: Version, w: Version)
    requires CompareCore(u, v) <= 0 && CompareCore(v, w) <= 0
    ensures CompareCore(u, w) <= 0
  {
    Lexicographic.Transitive(Lexicographic.CompareNat, u.Core(), v.Core(), w.Core());
  }

  /** Between two equal cores there is no other. */
  lemma CoreZero(u: Version, v: Version, w: Version)
    requires CompareCore(u, v) <= 0 && CompareCore(v, w) <= 0 && CompareCore(u, w) == 0
    ensures CompareCore(u, v) == 0 && CompareCore(v, w) == 0
  {
    CoreAntisymmetric(u, w);
    CoreAntisymmetric(w, u);
    CoreAntisymmetric(u, v);
    CoreAntisymmetric(v, w);
    CoreAntisymmetric(v, u);
    CoreAntisymmetric(w, v);
    CoreTransitive(w, u, v);
    CoreTransitive(v, w, u);
  }

  // ---------------------------------------------------------------------------------------------
  // Section 11: precedence without a bound on numeric identifiers

  predicate Less(m: nat, n: nat) {
    m < n
  }

  ghost predicate TextBelow(a: Bytes, b: Bytes) {
    Lexicographic.Below((x: Byte, y: Byte) => x < y, a, b)
  }

  ghost predicate NumeralBelow(a: Bytes, b: Bytes) {
    AllDigits(a) && AllDigits(b) && FromDecimal(a) < FromDecimal(b)
  }

  /** Numeric identifiers by value, others by their ASCII text, numeric ones before the others. */
  ghost predicate IdentifierBelow(a: Identifier, b: Identifier) {
    if AllDigits(a.raw) && AllDigits(b.raw) then NumeralBelow(a.raw, b.raw)
    else if AllDigits(a.raw) || AllDigits(b.raw) then AllDigits(a.raw)
    else TextBelow(a.raw, b.raw)
  }

  /** Major, minor and patch first; a pre-release before its release; then the first differing identifier, and
      the shorter list when there is none. */
  ghost predicate Precedes(v: Version, w: Version) {
    || Lexicographic.Below(Less, v.Core(), w.Core())
    || (v.Core() == w.Core() && PrereleaseBelow(v.prerelease, w.prerelease))
  }

  ghost predicate PrereleaseBelow(p: seq<Identifier>, q: seq<Identifier>) {
    p != [] && (q == [] || Lexicographic.Below(IdentifierBelow, p, q))
  }

  /** The comparison puts the two versions in the order of section 11. */
  ghost predicate Agrees(v: Version, w: Version) {
    && (Compare(v, w) < 0 <==> Precedes(v, w))
    && (Compare(v, w) > 0 <==> Precedes(w, v))
    && (Compare(v, w) == 0 <==> v == w)
  }

  /** The identifier is not a number, or is one below the largest 64-bit number. */
  predicate Bounded(id: Identifier) {
    AllDigits(id.raw) ==> FromDecimal(id.raw) < U64_LIMIT - 1
  }

  predicate AllBounded(v: Version) {
    forall i | 0 <= i < |v.prerelease| :: Bounded(v.prerelease[i])
  }

  predicate AllFit(v: Version) {
    forall i | 0 <= i < |v.prerelease| :: AllDigits(v.prerelease[i].raw) ==>
        FromDecimal(v.prerelease[i].raw) < U64_LIMIT
  }

  /** The 64-bit numbers of the two identifiers tell them apart. */
  predicate Resolved(a: Identifier, b: Identifier) {
    Bounded(a) || Bounded(b) || a.raw == b.raw
  }

  lemma TextDecides(a: Bytes, b: Bytes)
    ensures Lexicographic.Decides(CompareText, TextBelow, a, b)
    ensures !TextBelow(a, a)
  {
    var order, below := (x: Byte, y: Byte) => Lexicographic.CompareNat(x, y), (x: Byte, y: Byte) => x < y;
    assert forall x: Byte, y: Byte :: Lexicographic.Decides(order, below, x, y);
    Lexicographic.CompareDecides(order, below, a, b);
    Lexicographic.CompareDecides(order, below, a, a);
  }

  lemma NumeralsDiffer(a: Bytes, b: Bytes)
    requires Numeral(a) && Numeral(b) && FromDecimal(a) == FromDecimal(b)
    ensures a == b
  {
    hide FromDecimal, Decimal, Numeral;
    NumeralRoundTrip(a);
    NumeralRoundTrip(b);
  }

  /** Unless both identifiers saturate, the 64-bit comparison is exact. */
  lemma IdentifierDecides(a: Identifier, b: Identifier)
    requires WellFormedIdentifier(a) && WellFormedIdentifier(b) && Resolved(a, b)
    ensures Lexicographic.Decides(CompareIdentifier, IdentifierBelow, a, b)
    ensures !IdentifierBelow(a, a) && !IdentifierBelow(b, b)
  {
    hide FromDecimal, CompareText, TextBelow;
    TextDecides(a.raw, b.raw);
    TextDecides(b.raw, a.raw);
    if a.numeric && b.numeric && FromDecimal(a.raw) == FromDecimal(b.raw) {
      NumeralsDiffer(a.raw, b.raw);
    }
  }

  lemma CoreDecides(v: Version, w: Version)
    ensures CompareCore(v, w) < 0 <==> Lexicographic.Below(Less, v.Core(), w.Core())
    ensures CompareCore(v, w) > 0 <==> Lexicographic.Below(Less, w.Core(), v.Core())
    ensures CompareCore(v, w) == 0 <==> v.Core() == w.Core()
  {
    assert forall x: nat, y: nat :: Lexicographic.Decides(Lexicographic.CompareNat, Less, x, y);
    Lexicographic.CompareDecides(Lexicographic.CompareNat, Less, v.Core(), w.Core());
  }

  lemma PrereleaseDecides(p: seq<Identifier>, q: seq<Identifier>)
    requires forall x | x in p + q :: WellFormedIdentifier(x)
    requires forall x, y | x in p && y in q :: Resolved(x, y)
    ensures ComparePrerelease(p, q) < 0 <==> PrereleaseBelow(p, q)
    ensures ComparePrerelease(p, q) > 0 <==> PrereleaseBelow(q, p)
    ensures ComparePrerelease(p, q) == 0 <==> p == q
  {
    hide CompareIdentifier, IdentifierBelow, Resolved, WellFormedIdentifier, Lexicographic.Below;
    forall x, y | x in p && y in q
      ensures Lexicographic.Decides(CompareIdentifier, IdentifierBelow, x, y)
    {
      assert x in p + q && y in p + q;
      IdentifierDecides(x, y);
    }
    forall x | x in p + q
      ensures !IdentifierBelow(x, x)
    {
      SelfResolved(x);
      IdentifierDecides(x, x);
    }
    Lexicographic.CompareDecides(CompareIdentifier, IdentifierBelow, p, q);
  }

  lemma SelfResolved(x: Identifier)
    ensures Resolved(x, x)
  {
  }

  lemma ResolvedAgree(v: Version, w: Version)
    requires WellFormed(v) && WellFormed(w)
    requires forall x, y | x in v.prerelease && y in w.prerelease :: Resolved(x, y)
    ensures Agrees(v, w)
  {
    hide CompareCore, ComparePrerelease, PrereleaseBelow, Lexicographic.Below, Resolved, WellFormedIdentifier;
    CoreDecides(v, w);
    PrereleaseDecides(v.prerelease, w.prerelease);
    assert v.Core() == w.Core() ==>
              v.Core()[0] == w.Core()[0] && v.Core()[1] == w.Core()[1] && v.Core()[2] == w.Core()[2];
  }

  /** When every number fits in 64 bits the comparison is the order of section 11, and is zero only for equal
      versions. */
  lemma FittingVersionsAgree(v: Version, w: Version)
    requires WellFormed(v) && WellFormed(w) && AllFit(v) && AllFit(w)
    ensures Agrees(v, w)
  {
    forall x, y | x in v.prerelease && y in w.prerelease
      ensures Resolved(x, y)
    {
      if !Bounded(x) && !Bounded(y) {
        assert WellFormedIdentifier(x) && WellFormedIdentifier(y);
        assert FromDecimal(x.raw) == U64_LIMIT - 1 && FromDecimal(y.raw) == U64_LIMIT - 1;
        NumeralsDiffer(x.raw, y.raw);
      }
    }
    ResolvedAgree(v, w);
  }

  // ---------------------------------------------------------------------------------------------
  // Exactly which versions are ordered correctly against all others

  /** The version whose i-th identifier is the next larger number. */
  function Raise(v: Version, i: nat): Version
    requires i < |v.prerelease| && AllDigits(v.prerelease[i].raw)
  {
    v.(prerelease := v.prerelease[i := ParseIdentifier(Decimal(FromDecimal(v.prerelease[i].raw) + 1))])
  }

  lemma RaisedIdentifier(a: Identifier)
    requires WellFormedIdentifier(a) && !Bounded(a)
    ensures var b := ParseIdentifier(Decimal(FromDecimal(a.raw) + 1));
            WellFormedIdentifier(b) && IdentifierBelow(a, b) && CompareIdentifier(a, b) == 0
  {
    hide Decimal, FromDecimal;
    var n := FromDecimal(a.raw) + 1;
    DecimalRoundTrip(n);
    DecimalIsNumeral(n);
  }

  lemma SaturatedTie(v: Version, i: nat)
    requires WellFormed(v) && i < |v.prerelease| && !Bounded(v.prerelease[i])
    ensures var w := Raise(v, i); WellFormed(w) && Precedes(v, w) && w != v && Compare(v, w) == 0
  {
    hide FromDecimal, CompareIdentifier, IdentifierBelow, ParseIdentifier, WellFormedIdentifier, Bounded, CompareText,
         TextBelow;
    BoundedMeaning(v.prerelease[i]);
    var w := Raise(v, i);
    var p, q := v.prerelease, w.prerelease;
    assert WellFormedIdentifier(p[i]);
    RaisedIdentifier(p[i]);
    forall k | 0 <= k < |p|
      ensures CompareIdentifier(p[k], q[k]) == 0
    {
      if k != i {
        SelfResolved(p[k]);
        assert WellFormedIdentifier(p[k]);
        IdentifierDecides(p[k], p[k]);
      }
    }
    Lexicographic.AllEqual(CompareIdentifier, p, q);
    Lexicographic.AllEqual(Lexicographic.CompareNat, v.Core(), w.Core());
    assert p[..i] == q[..i];
    assert Lexicographic.DropsAt(IdentifierBelow, p, q, i);
    assert p[i] != q[i] by {
      if p[i] == q[i] {
        SelfResolved(p[i]);
        IdentifierDecides(p[i], p[i]);
      }
    }
  }

  lemma BoundedMeaning(id: Identifier)
    ensures Bounded(id) <==> (AllDigits(id.raw) ==> FromDecimal(id.raw) < U64_LIMIT - 1)
  {
  }

  /** A version is ordered as section 11 says against every other version, and compares equal to no other, exactly
      when each of its numeric identifiers is below the largest 64-bit number. */
  lemma OrderIsExactIff(v: Version)
    requires WellFormed(v)
    ensures AllBounded(v) <==> forall w | WellFormed(w) :: Agrees(v, w)
    ensures AllBounded(v) <==> forall w | WellFormed(w) && Compare(v, w) == 0 :: v == w
  {
    hide Compare, Precedes, WellFormed, Bounded, Resolved, Raise;
    if AllBounded(v) {
      forall w | WellFormed(w)
        ensures Agrees(v, w)
      {
        BoundedResolved(v, w);
        ResolvedAgree(v, w);
      }
    } else {
      var i :| 0 <= i < |v.prerelease| && !Bounded(v.prerelease[i]);
      BoundedMeaning(v.prerelease[i]);
      SaturatedTie(v, i);
      assert !Agrees(v, Raise(v, i));
    }
  }

  lemma BoundedResolved(v: Version, w: Version)
    requires AllBounded(v)
    ensures forall x, y | x in v.prerelease && y in w.prerelease :: Resolved(x, y)
  {
  }

  /** 1.0.0 with the single pre-release identifier `n`. */
  function Numbered(n: nat): Version {
    Version(1, 0, 0, [ParseIdentifier(Decimal(n))])
  }

  /** Two releases one apart, the first at the largest 64-bit number, that the comparison takes for equal. */
  lemma TieAtTheLimit()
    ensures var v, w := Numbered(U64_LIMIT - 1), Numbered(U64_LIMIT);
            WellFormed(v) && WellFormed(w) && v != w && Precedes(v, w) && Compare(v, w) == 0
  {
    hide Decimal, FromDecimal, Compare, Precedes;
    var v, w := Numbered(U64_LIMIT - 1), Numbered(U64_LIMIT);
    DecimalIsNumeral(U64_LIMIT - 1);
    DecimalRoundTrip(U64_LIMIT - 1);
    SaturatedTie(v, 0);
    assert Raise(v, 0).prerelease == w.prerelease;
  }
}
