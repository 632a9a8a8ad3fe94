/** Cutting texts at a separator and joining them again. */
module Texts {
  import opened Basics

  function FirstIndex(text: Bytes, separator: Byte): (k: nat)
    ensures k <= |text| && (k < |text| ==> text[k] == separator)
    ensures separator !in text[..k]
  {
    if text == [] || text[0] == separator then 0
    else
      var k := FirstIndex(text[1..], separator) + 1;
      assert text[..k] == [text[0]] + text[1..][..k - 1];
      k
  }

  function Split(text: Bytes, separator: Byte): (parts: seq<Bytes>)
    ensures parts != []
    ensures forall i | 0 <= i < |parts| :: separator !in parts[i]
    decreases |text|
  {
    var k := FirstIndex(text, separator);
    if k == |text| then
      assert text[..k] == text;
      [text]
    else [text[..k]] + Split(text[k + 1..], separator)
  }

  function Join(parts: seq<Bytes>, separator: Byte): Bytes
    requires parts != []
  {
    if |parts| == 1 then parts[0] else parts[0] + [separator] + Join(parts[1..], separator)
  }

  lemma {:induction false} JoinOfSplit(text: Bytes, separator: Byte)
    ensures Join(Split(text, separator), separator) == text
    decreases |text|
  {
    var k := FirstIndex(text, separator);
    if k < |text| {
      JoinOfSplit(text[k + 1..], separator);
      var rest := Split(text[k + 1..], separator);
      assert Split(text, separator)[1..] == rest;
      assert text == text[..k] + [separator] + text[k + 1..];
    }
  }

  /** The first separator stands right after a prefix that has none. */
  lemma {:induction false} FirstIndexAfter(head: Bytes, separator: Byte, tail: Bytes)
    requires separator !in head
    ensures FirstIndex(head + [separator] + tail, separator) == |head|
    ensures FirstIndex(head, separator) == |head|
  {
    var text := head + [separator] + tail;
    if head == [] {
      assert text[0] == separator;
    } else {
      assert head[0] in head && text[0] == head[0];
      assert text[1..] == head[1..] + [separator] + tail;
      assert forall b | b in head[1..] :: b in head;
      FirstIndexAfter(head[1..], separator, tail);
    }
  }

  lemma {:induction false} SplitOfJoin(parts: seq<Bytes>, separator: Byte)
    requires parts != [] && forall i | 0 <= i < |parts| :: separator !in parts[i]
    ensures Split(Join(parts, separator), separator) == parts
    decreases |parts|
  {
    FirstIndexAfter(parts[0], separator, []);
    if |parts| == 1 {
      assert parts == [parts[0]];
    } else {
      var rest := Join(parts[1..], separator);
      var text := Join(parts, separator);
      FirstIndexAfter(parts[0], separator, rest);
      assert text[..|parts[0]|] == parts[0] && text[|parts[0]| + 1..] == rest;
      SplitOfJoin(parts[1..], separator);
      assert parts == [parts[0]] + parts[1..];
    }
  }

  // ---------------------------------------------------------------------------------------------
  // White space at the ends

  /** The UTF-8 encodings of the characters that count as white space: six in ASCII, U+0085, U+00A0, U+1680, U+2000 to
      U+200A, U+2028, U+2029, U+202F, U+205F and U+3000. */
  predicate WhiteSpace(c: Bytes) {
    if |c| == 1 then 9 <= c[0] <= 13 || c[0] == 32
    else if |c| == 2 then c[0] == 0xC2 && (c[1] == 0x85 || c[1] == 0xA0)
    else if |c| == 3 then
      || (c[0] == 0xE1 && c[1] == 0x9A && c[2] == 0x80)
      || (c[0] == 0xE2 && c[1] == 0x80 && (0x80 <= c[2] <= 0x8A || c[2] == 0xA8 || c[2] == 0xA9 || c[2] == 0xAF))
      || (c[0] == 0xE2 && c[1] == 0x81 && c[2] == 0x9F)
      || (c[0] == 0xE3 && c[1] == 0x80 && c[2] == 0x80)
    else false
  }

  /** How many bytes the white space character at the front takes, 0 if there is none. */
  function SpaceInFront(text: Bytes): (n: nat)
    ensures n <= 3 && n <= |text|
    ensures n > 0 ==> WhiteSpace(text[..n])
  {
    if |text| > 0 && WhiteSpace(text[..1]) then 1
    else if |text| > 1 && WhiteSpace(text[..2]) then 2
    else if |text| > 2 && WhiteSpace(text[..3]) then 3
    else 0
  }

  function SpaceAtEnd(text: Bytes): (n: nat)
    ensures n <= 3 && n <= |text|
    ensures n > 0 ==> WhiteSpace(text[|text| - n..])
  {
    var m := |text|;
    if m > 0 && WhiteSpace(text[m - 1..]) then 1
    else if m > 1 && WhiteSpace(text[m - 2..]) then 2
    else if m > 2 && WhiteSpace(text[m - 3..]) then 3
    else 0
  }

  /** The text without white space at either end. */
  function Trim(text: Bytes): (r: Bytes)
    ensures |r| <= |text|
    decreases |text|
  {
    if SpaceInFront(text) > 0 then Trim(text[SpaceInFront(text)..])
    else if SpaceAtEnd(text) > 0 then Trim(text[..|text| - SpaceAtEnd(text)])
    else text
  }

  predicate Visible(b: Byte) {
    33 <= b < 127
  }

  lemma VisibleIsNotSpace(c: Bytes)
    requires c != [] && (Visible(c[0]) || Visible(c[|c| - 1]))
    ensures !WhiteSpace(c)
  {
  }

  lemma VisibleInFront(text: Bytes)
    requires text != [] && Visible(text[0])
    ensures SpaceInFront(text) == 0
  {
    hide WhiteSpace, SpaceInFront;
    var n := SpaceInFront(text);
    if n > 0 {
      VisibleIsNotSpace(text[..n]);
    }
  }

  lemma VisibleAtEnd(text: Bytes)
    requires text != [] && Visible(text[|text| - 1])
    ensures SpaceAtEnd(text) == 0
  {
    hide WhiteSpace, SpaceAtEnd;
    var n := SpaceAtEnd(text);
    if n > 0 {
      VisibleIsNotSpace(text[|text| - n..]);
    }
  }

  lemma TrimOfVisible(text: Bytes)
    requires text != [] && Visible(text[0]) && Visible(text[|text| - 1])
    ensures Trim(text) == text
  {
    hide SpaceInFront, SpaceAtEnd;
    VisibleInFront(text);
    VisibleAtEnd(text);
  }

  /** White space characters only. */
  predicate Blank(text: Bytes)
    decreases |text|
  {
    text == [] || (SpaceInFront(text) > 0 && Blank(text[SpaceInFront(text)..]))
  }

  /** A text that does not begin with white space does not without its white space at the end either, and has more. */
  lemma FrontStays(text: Bytes)
    requires SpaceInFront(text) == 0 && SpaceAtEnd(text) > 0
    ensures var rest := text[..|text| - SpaceAtEnd(text)];
            rest != [] && SpaceInFront(rest) == 0
  {
    var end := SpaceAtEnd(text);
    var rest := text[..|text| - end];
    assert text[0..] == text == text[..|text|];
    assert |rest| > 0 ==> rest[..1] == text[..1];
    assert |rest| > 1 ==> rest[..2] == text[..2];
    assert |rest| > 2 ==> rest[..3] == text[..3];
  }

  /** Nothing is left exactly of a text that is all white space. */
  lemma {:induction false} TrimIsEmpty(text: Bytes)
    ensures Trim(text) == [] <==> Blank(text)
    decreases |text|
  {
    hide SpaceInFront, SpaceAtEnd;
    if SpaceInFront(text) > 0 {
      TrimIsEmpty(text[SpaceInFront(text)..]);
    } else if SpaceAtEnd(text) > 0 {
      FrontStays(text);
      TrimIsEmpty(text[..|text| - SpaceAtEnd(text)]);
    }
  }
}
