/** Lexicographic order over sequences, for an order on their elements. */
module Lexicographic {

  function CompareNat(a: nat, b: nat): int {
    if a < b then -1 else if a > b then 1 else 0
  }

  /** The sign of the first difference; a proper prefix comes first. */
  function Compare<T>(order: (T, T) -> int, a: seq<T>, b: seq<T>): int {
    if a == [] && b == [] then 0
    else if a == [] then -1
    else if b == [] then 1
    else
      var first := order(a[0], b[0]);
      if first != 0 then first else Compare(order, a[1..], b[1..])
  }

  /** `order` is a total preorder, as a three-way comparison. */
  ghost predicate Preorder<T(!new)>(order: (T, T) -> int) {
    && (forall x, y :: order(x, y) < 0 <==> order(y, x) > 0)
    && (forall x, y, z {:trigger order(x, y), order(y, z)} :: order(x, y) <= 0 && order(y, z) <= 0 ==> order(x, z) <= 0)
  }

  lemma {:induction false} Antisymmetric<T(!new)>(order: (T, T) -> int, a: seq<T>, b: seq<T>)
    requires Preorder(order)
    ensures Compare(order, a, b) < 0 <==> Compare(order, b, a) > 0
    decreases |a|
  {
    if a != [] && b != [] {
      Antisymmetric(order, a[1..], b[1..]);
      assert order(a[0], b[0]) < 0 <==> order(b[0], a[0]) > 0;
      assert order(b[0], a[0]) < 0 <==> order(a[0], b[0]) > 0;
    }
  }

  lemma {:induction false} Transitive<T(!new)>(order: (T, T) -> int, a: seq<T>, b: seq<T>, c: seq<T>)
    requires Preorder(order)
    requires Compare(order, a, b) <= 0 && Compare(order, b, c) <= 0
    ensures Compare(order, a, c) <= 0
    decreases |a|
  {
    if a != [] && b != [] && c != [] {
      var x, y, z := a[0], b[0], c[0];
      assert order(x, y) <= 0 && order(y, z) <= 0;
      assert order(x, z) <= 0;
      if order(x, z) == 0 {
        assert order(z, x) <= 0;
        assert order(y, x) <= 0 && order(z, y) <= 0;
        Transitive(order, a[1..], b[1..], c[1..]);
      }
    }
  }

  lemma IsPreorder<T(!new)>(order: (T, T) -> int)
    requires Preorder(order)
    ensures Preorder((a, b) => Compare(order, a, b))
  {
    forall a: seq<T>, b: seq<T> {
      Antisymmetric(order, a, b);
    }
    forall a: seq<T>, b: seq<T>, c: seq<T> | Compare(order, a, b) <= 0 && Compare(order, b, c) <= 0
      ensures Compare(order, a, c) <= 0
    {
      Transitive(order, a, b, c);
    }
  }

  lemma {:induction false} AllEqual<T>(order: (T, T) -> int, a: seq<T>, b: seq<T>)
    requires |a| == |b| && forall k | 0 <= k < |a| :: order(a[k], b[k]) == 0
    ensures Compare(order, a, b) == 0
  {
    if a != [] {
      assert forall k | 0 <= k < |a| - 1 :: a[1..][k] == a[k + 1] && b[1..][k] == b[k + 1];
      AllEqual(order, a[1..], b[1..]);
    }
  }

  // ---------------------------------------------------------------------------------------------
  // What the comparison decides

  /** `k` is where `a` falls below `b`: they agree before it, and there `a` ends or has the lower element. */
  ghost predicate DropsAt<T(!new)>(below: (T, T) -> bool, a: seq<T>, b: seq<T>, k: nat) {
    k <= |a| && k < |b| && a[..k] == b[..k] && (k == |a| || below(a[k], b[k]))
  }

  ghost predicate Below<T(!new)>(below: (T, T) -> bool, a: seq<T>, b: seq<T>) {
    exists k: nat :: DropsAt(below, a, b, k)
  }

  /** The comparison decides this strict order for the two elements. */
  ghost predicate Decides<T(!new)>(order: (T, T) -> int, below: (T, T) -> bool, x: T, y: T) {
    && (order(x, y) < 0 <==> below(x, y))
    && (order(x, y) > 0 <==> below(y, x))
    && (order(x, y) == 0 <==> x == y)
  }

  lemma BelowOfTails<T(!new)>(below: (T, T) -> bool, a: seq<T>, b: seq<T>)
    requires a != [] && b != [] && !below(a[0], b[0])
    ensures Below(below, a, b) <==> a[0] == b[0] && Below(below, a[1..], b[1..])
  {
    if Below(below, a, b) {
      var k: nat :| DropsAt(below, a, b, k);
      assert k > 0;
      assert a[0] == a[..k][0] && b[0] == b[..k][0];
      assert a[1..][..k - 1] == a[..k][1..] && b[1..][..k - 1] == b[..k][1..];
      assert DropsAt(below, a[1..], b[1..], k - 1);
    }
    if a[0] == b[0] && Below(below, a[1..], b[1..]) {
      var k: nat :| DropsAt(below, a[1..], b[1..], k);
      assert a[..k + 1] == [a[0]] + a[1..][..k] && b[..k + 1] == [b[0]] + b[1..][..k];
      assert DropsAt(below, a, b, k + 1);
    }
  }

  /** Where the comparison of elements decides a strict order, the comparison of sequences decides the
      lexicographic order over it. */
  lemma {:induction false} CompareDecides<T(!new)>(order: (T, T) -> int, below: (T, T) -> bool, a: seq<T>, b: seq<T>)
    requires forall x, y | x in a && y in b :: Decides(order, below, x, y)
    requires forall x | x in a + b :: !below(x, x)
    ensures Compare(order, a, b) < 0 <==> Below(below, a, b)
    ensures Compare(order, a, b) > 0 <==> Below(below, b, a)
    ensures Compare(order, a, b) == 0 <==> a == b
    decreases |a|
  {
    if a == [] || b == [] {
      if b != [] {
        assert DropsAt(below, a, b, 0);
      }
      if a != [] {
        assert DropsAt(below, b, a, 0);
      }
    } else {
      var x, y := a[0], b[0];
      assert x in a && y in b && x in a + b && Decides(order, below, x, y);
      CompareDecides(order, below, a[1..], b[1..]);
      assert a == [x] + a[1..] && b == [y] + b[1..];
      if below(x, y) {
        assert DropsAt(below, a, b, 0);
      } else {
        BelowOfTails(below, a, b);
      }
      if below(y, x) {
        assert DropsAt(below, b, a, 0);
      } else {
        BelowOfTails(below, b, a);
      }
    }
  }
}

/** Release versions: the parser of canonical Semantic Versioning texts and their order. */
module SemVer {
  import opened Basics
  import opened Canonical
  import opened Texts

  datatype Identifier = Identifier(raw: Bytes, numeric: bool, number: U64)

  datatype Version = Version(major: U64, minor: U64, patch: U64, prerelease: seq<Identifier>) {
    function Core(): seq<nat> {
      [major, minor, patch]
    }
  }

  const DOT: Byte := 46
  const DASH: Byte := 45
  const PLUS: Byte := 43
  const ZERO: Byte := 48

  predicate Digit(b: Byte) {
    48 <= b <= 57
  }

  predicate AllDigits(text: Bytes) {
    forall i | 0 <= i < |text| :: Digit(text[i])
  }

  predicate IdentifierByte(b: Byte) {
    Digit(b) || 97 <= b <= 122 || 65 <= b <= 90 || b == DASH
  }

  // ---------------------------------------------------------------------------------------------
  // Numbers

  predicate NoLeadingZero(text: Bytes) {
    |text| > 1 ==> text[0] != ZERO
  }

  predicate Numeral(text: Bytes) {
    text != [] && AllDigits(text) && NoLeadingZero(text)
  }

  lemma {:induction false} DecimalIsNumeral(n: nat)
    ensures Numeral(Decimal(n)) && (n > 0 ==> Decimal(n)[0] != ZERO)
  {
    if n >= 10 {
      DecimalIsNumeral(n / 10);
      assert Decimal(n)[0] == Decimal(n / 10)[0];
    }
  }

  lemma {:induction false} NumeralIsPositive(text: Bytes)
    requires AllDigits(text) && text != [] && text[0] != ZERO
    ensures FromDecimal(text) > 0
  {
    if |text| > 1 {
      NumeralIsPositive(text[..|text| - 1]);
    }
  }

  /** A numeral is the decimal text of its value. */
  lemma {:induction false} NumeralRoundTrip(text: Bytes)
    requires Numeral(text)
    ensures Decimal(FromDecimal(text)) == text
  {
    var front := text[..|text| - 1];
    if |text| == 1 {
      assert front == [];
    } else {
      assert front[0] == text[0];
      NumeralIsPositive(front);
      NumeralRoundTrip(front);
      assert FromDecimal(text) / 10 == FromDecimal(front);
      assert text == front + [text[|text| - 1]];
    }
  }

  /** What the 64-bit conversion yields: the value, or the largest 64-bit number when it does not fit. */
  function Saturated(value: nat): U64 {
    if value < U64_LIMIT then value else U64_LIMIT - 1
  }

  // ---------------------------------------------------------------------------------------------
  // Parsing and printing

  predicate CoreNumber(text: Bytes) {
    Numeral(text) && FromDecimal(text) < U64_LIMIT
  }

  predicate IdentifierText(text: Bytes) {
    && text != []
    && (forall i | 0 <= i < |text| :: IdentifierByte(text[i]))
    && (AllDigits(text) ==> NoLeadingZero(text))
  }

  function ParseIdentifier(text: Bytes): Identifier {
    if AllDigits(text) then Identifier(text, true, Saturated(FromDecimal(text))) else Identifier(text, false, 0)
  }

  function ParseIdentifiers(texts: seq<Bytes>): (ids: seq<Identifier>)
    ensures |ids| == |texts|
    ensures forall i | 0 <= i < |ids| :: ids[i] == ParseIdentifier(texts[i])
  {
    seq(|texts|, i requires 0 <= i < |texts| => ParseIdentifier(texts[i]))
  }

  predicate Plausible(raw: Bytes) {
    raw != [] && Trim(raw) == raw && PLUS !in raw
  }

  predicate Core(parts: seq<Bytes>) {
    |parts| == 3 && CoreNumber(parts[0]) && CoreNumber(parts[1]) && CoreNumber(parts[2])
  }

  function CoreVersion(parts: seq<Bytes>, prerelease: seq<Identifier>): Version
    requires Core(parts)
  {
    Version(FromDecimal(parts[0]), FromDecimal(parts[1]), FromDecimal(parts[2]), prerelease)
  }

  function Parse(raw: Bytes): Option<Version> {
    if !Plausible(raw) then None
    else
      var cut := FirstIndex(raw, DASH);
      var parts := Split(raw[..cut], DOT);
      if !Core(parts) then None
      else if cut == |raw| then Some(CoreVersion(parts, []))
      else
        var texts := Split(raw[cut + 1..], DOT);
        if !(forall i | 0 <= i < |texts| :: IdentifierText(texts[i])) then None
        else Some(CoreVersion(parts, ParseIdentifiers(texts)))
  }

  /** Identifiers as the parser builds them. */
  ghost predicate WellFormedIdentifier(id: Identifier) {
    IdentifierText(id.raw) && id == ParseIdentifier(id.raw)
  }

  ghost predicate WellFormed(v: Version) {
    forall i | 0 <= i < |v.prerelease| :: WellFormedIdentifier(v.prerelease[i])
  }

  function Raws(ids: seq<Identifier>): (texts: seq<Bytes>)
    ensures |texts| == |ids|
    ensures forall i | 0 <= i < |ids| :: texts[i] == ids[i].raw
  {
    seq(|ids|, i requires 0 <= i < |ids| => ids[i].raw)
  }

  function PrintCore(v: Version): Bytes {
    Join([Decimal(v.major), Decimal(v.minor), Decimal(v.patch)], DOT)
  }

  function Print(v: Version): Bytes {
    PrintCore(v) + (if v.prerelease == [] then [] else [DASH] + Join(Raws(v.prerelease), DOT))
  }

  /** Joining texts of identifier bytes gives a text of identifier bytes and dots that ends in one of the former. */
  lemma {:induction false} JoinOfIdentifiers(texts: seq<Bytes>)
    requires texts != []
    requires forall i | 0 <= i < |texts| :: texts[i] != [] && forall k | 0 <= k < |texts[i]| ::
             IdentifierByte(texts[i][k])
    ensures var joined := Join(texts, DOT);
            && joined != [] && IdentifierByte(joined[0]) && IdentifierByte(joined[|joined| - 1])
            && (forall k | 0 <= k < |joined| :: IdentifierByte(joined[k]) || joined[k] == DOT)
  {
    assert texts[0] != [];
    if |texts| > 1 {
      JoinOfIdentifiers(texts[1..]);
      var joined, rest := Join(texts, DOT), Join(texts[1..], DOT);
      assert joined[|joined| - 1] == rest[|rest| - 1];
      assert joined[0] == texts[0][0];
    }
  }

  lemma CoreText(v: Version)
    ensures var core := PrintCore(v);
            && core != [] && DASH !in core && PLUS !in core && Digit(core[0]) && Digit(core[|core| - 1])
            && Split(core, DOT) == [Decimal(v.major), Decimal(v.minor), Decimal(v.patch)]
  {
    hide Decimal, Split;
    var a, b, c := Decimal(v.major), Decimal(v.minor), Decimal(v.patch);
    assert [a, b, c][1..] == [b, c] && [b, c][1..] == [c];
    SplitOfJoin([a, b, c], DOT);
    assert Join([c], DOT) == c;
    assert Join([b, c], DOT) == b + [DOT] + c;
    var core := PrintCore(v);
    assert core == a + [DOT] + (b + [DOT] + c);
    assert core[|core| - 1] == c[|c| - 1];
  }

  lemma CoreParses(v: Version)
    ensures var parts := Split(PrintCore(v), DOT);
            Core(parts) && forall ids :: CoreVersion(parts, ids) == v.(prerelease := ids)
  {
    hide Decimal, FromDecimal, Split, PrintCore, Numeral;
    CoreText(v);
    DecimalIsNumeral(v.major);
    DecimalIsNumeral(v.minor);
    DecimalIsNumeral(v.patch);
    DecimalRoundTrip(v.major);
    DecimalRoundTrip(v.minor);
    DecimalRoundTrip(v.patch);
  }

  lemma PrereleaseText(ids: seq<Identifier>)
    requires ids != [] && forall i | 0 <= i < |ids| :: WellFormedIdentifier(ids[i])
    ensures var text := Join(Raws(ids), DOT);
            && text != [] && PLUS !in text && Visible(text[|text| - 1])
            && Split(text, DOT) == Raws(ids) && ParseIdentifiers(Raws(ids)) == ids
  {
    hide Split, Join, FromDecimal;
    var texts := Raws(ids);
    forall i | 0 <= i < |texts|
      ensures IdentifierText(texts[i])
    {
      assert WellFormedIdentifier(ids[i]);
    }
    JoinOfIdentifiers(texts);
    SplitOfJoin(texts, DOT);
  }

  /** Parsing the text of a well-formed version gives the version back. */
  lemma ParseOfPrint(v: Version)
    requires WellFormed(v)
    ensures Parse(Print(v)) == Some(v)
  {
    hide Decimal, FromDecimal, Split, Join, PrintCore, Core, FirstIndex, IdentifierText, Raws, ParseIdentifiers,
         CoreVersion, Trim;
    CoreText(v);
    CoreParses(v);
    var core, raw := PrintCore(v), Print(v);
    if v.prerelease == [] {
      assert raw == core;
      FirstIndexAfter(core, DASH, []);
      assert raw[..|core|] == core;
      TrimOfVisible(raw);
    } else {
      PrereleaseText(v.prerelease);
      var text := Join(Raws(v.prerelease), DOT);
      assert raw == core + [DASH] + text;
      FirstIndexAfter(core, DASH, text);
      assert raw[..|core|] == core && raw[|core| + 1..] == text;
      assert raw[|raw| - 1] == text[|text| - 1];
      TrimOfVisible(raw);
    }
  }

  /** A parsed version is well formed, and printing it gives back the text it was parsed from. */
  lemma PrintOfParse(raw: Bytes)
    requires Parse(raw).Some?
    ensures WellFormed(Parse(raw).value) && Print(Parse(raw).value) == raw
  {
    hide Decimal, FromDecimal, Split, FirstIndex, Join, Numeral, Trim;
    var v := Parse(raw).value;
    var cut := FirstIndex(raw, DASH);
    var parts := Split(raw[..cut], DOT);
    JoinOfSplit(raw[..cut], DOT);
    NumeralRoundTrip(parts[0]);
    NumeralRoundTrip(parts[1]);
    NumeralRoundTrip(parts[2]);
    assert parts == [Decimal(v.major), Decimal(v.minor), Decimal(v.patch)];
    if cut == |raw| {
      assert raw[..cut] == raw;
    } else {
      var texts := Split(raw[cut + 1..], DOT);
      JoinOfSplit(raw[cut + 1..], DOT);
      assert Raws(v.prerelease) == texts;
      assert raw == raw[..cut] + ([DASH] + raw[cut + 1..]);
    }
  }

  method CheckIdentifierBytes(text: Bytes) returns (valid: bool)
    ensures valid <==> forall i | 0 <= i < |text| :: IdentifierByte(text[i])
  {
    for i := 0 to |text|
      invariant forall k | 0 <= k < i :: IdentifierByte(text[k])
    {
      if !IdentifierByte(text[i]) {
        return false;
      }
    }
    return true;
  }

  method CheckDigits(text: Bytes) returns (digits: bool)
    ensures digits <==> AllDigits(text)
  {
    for i := 0 to |text|
      invariant forall k | 0 <= k < i :: Digit(text[k])
    {
      if !Digit(text[i]) {
        return false;
      }
    }
    return true;
  }

  /** Decimal conversion to 64 bits: a value, or failure together with the largest number on overflow. */
  method ParseUint(text: Bytes) returns (number: U64, ok: bool)
    requires AllDigits(text)
    ensures text != [] ==> number == Saturated(FromDecimal(text))
    ensures ok <==> text != [] && FromDecimal(text) < U64_LIMIT
  {
    if text == [] {
      return 0, false;
    }
    var value: nat := 0;
    var i := 0;
    assert text[..0] == [];
    while i < |text|
      invariant 0 <= i <= |text|
      invariant value == FromDecimal(text[..i]) && value < U64_LIMIT
    {
      var next := 10 * value + (text[i] - 48);
      assert text[..i + 1][..i] == text[..i];
      assert next == FromDecimal(text[..i + 1]);
      if next >= U64_LIMIT {
        FromDecimalGrows(text, i + 1);
        return U64_LIMIT - 1, false;
      }
      value := next;
      i := i + 1;
    }
    assert text[..i] == text;
    return value, true;
  }

  lemma {:induction false} FromDecimalGrows(text: Bytes, k: nat)
    requires AllDigits(text) && k <= |text|
    ensures FromDecimal(text[..k]) <= FromDecimal(text)
    decreases |text|
  {
    if k == |text| {
      assert text[..k] == text;
    } else {
      FromDecimalGrows(text[..|text| - 1], k);
      assert text[..|text| - 1][..k] == text[..k];
    }
  }

  method ParseCore(parts: seq<Bytes>) returns (numbers: Option<seq<U64>>)
    ensures numbers.Some? <==> Core(parts)
    ensures numbers.Some? ==> |numbers.value| == 3 && forall k | 0 <= k < 3 :: numbers.value[k] == FromDecimal(parts[k])
  {
    hide FromDecimal;
    if |parts| != 3 {
      return None;
    }
    var values: seq<U64> := [];
    for i := 0 to 3
      invariant |values| == i
      invariant forall k | 0 <= k < i :: CoreNumber(parts[k]) && values[k] == FromDecimal(parts[k])
    {
      var part := parts[i];
      if part == [] || (|part| > 1 && part[0] == ZERO) {
        return None;
      }
      var digits := CheckDigits(part);
      if !digits {
        return None;
      }
      var value, ok := ParseUint(part);
      if !ok {
        return None;
      }
      values := values + [value];
    }
    return Some(values);
  }

  method ParsePrerelease(texts: seq<Bytes>) returns (ids: Option<seq<Identifier>>)
    ensures ids.Some? <==> forall i | 0 <= i < |texts| :: IdentifierText(texts[i])
    ensures ids.Some? ==> ids.value == ParseIdentifiers(texts)
  {
    hide FromDecimal;
    var entries: seq<Identifier> := [];
    for i := 0 to |texts|
      invariant |entries| == i
      invariant forall k | 0 <= k < i :: IdentifierText(texts[k]) && entries[k] == ParseIdentifier(texts[k])
    {
      var part := texts[i];
      var valid := CheckIdentifierBytes(part);
      if part == [] || !valid {
        return None;
      }
      var entry := Identifier(part, false, 0);
      var digits := CheckDigits(part);
      if digits {
        if |part| > 1 && part[0] == ZERO {
          return None;
        }
        var number, _ := ParseUint(part);
        entry := Identifier(part, true, number);
      }
      entries := entries + [entry];
    }
    assert entries == ParseIdentifiers(texts);
    return Some(entries);
  }

  /** The parser. It accepts exactly the texts of well-formed versions, and yields the version whose text it was
      given. */
  method ParseVersion(raw: Bytes) returns (r: Option<Version>)
    ensures r == Parse(raw)
    ensures r.Some? <==> exists v :: WellFormed(v) && Print(v) == raw
    ensures r.Some? ==> WellFormed(r.value) && Print(r.value) == raw
  {
    hide FromDecimal, Decimal, Split, FirstIndex, Core, IdentifierText, ParseIdentifiers, Print, Trim;
    if Parse(raw).Some? {
      PrintOfParse(raw);
    }
    forall v | WellFormed(v) && Print(v) == raw
      ensures Parse(raw) == Some(v)
    {
      ParseOfPrint(v);
    }
    if raw == [] || Trim(raw) != raw || PLUS in raw {
      return None;
    }
    var cut := FirstIndex(raw, DASH);
    var parts := Split(raw[..cut], DOT);
    var numbers := ParseCore(parts);
    if numbers.None? {
      return None;
    }
    var version := Version(numbers.value[0], numbers.value[1], numbers.value[2], []);
    if cut == |raw| {
      return Some(version);
    }
    var ids := ParsePrerelease(Split(raw[cut + 1..], DOT));
    if ids.None? {
      return None;
    }
    return Some(version.(prerelease := ids.value));
  }
}
