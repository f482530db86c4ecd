/** The spellings of a JSON string (RFC 8259 section 7), and what each is decoded to. */
module JsonSpelling {
  import opened CText
  import opened Utf8
  import opened JsonLexer
  import opened JsonTokens
  import opened Unescape
  import opened JsonStrings

  const LOWER := "0123456789abcdef"
  const UPPER := "0123456789ABCDEF"

  /** The letters of the two-byte escapes, and the bytes they stand for. */
  const LETTERS := "\"\\/bfnrt"
  const LETTER_BYTES: seq<nat> := [34, 92, 47, 8, 12, 10, 13, 9]

  /** A byte as it is, a two-byte escape, or a \u escape of a unit; each of its digits may
      be in upper case. */
  datatype Element = Itself(c: char) | Short(k: nat) | Unit(u: nat, upper: (bool, bool, bool, bool))

  predicate ValidElement(e: Element) {
    match e
    case Itself(c) => c != '"' && c != '\\'
    case Short(k) => k < 8
    case Unit(u, _) => u < 0x1_0000
  }

  function Digit(d: nat, upper: bool): char
    requires d < 16
  {
    if upper then UPPER[d] else LOWER[d]
  }

  function Spell(e: Element): string
    requires ValidElement(e)
  {
    match e
    case Itself(c) => [c]
    case Short(k) => ['\\', LETTERS[k]]
    case Unit(u, upper) =>
      ['\\', 'u', Digit(u / 0x1000, upper.0), Digit(u / 0x100 % 16, upper.1), Digit(u / 0x10 % 16, upper.2),
       Digit(u % 16, upper.3)]
  }

  ghost predicate ValidElements(es: seq<Element>) {
    forall k :: 0 <= k < |es| ==> ValidElement(es[k])
  }

  function Spelled(es: seq<Element>): string
    requires ValidElements(es)
  {
    if es == [] then "" else Spell(es[0]) + Spelled(es[1..])
  }

  /** The bytes the decoder makes of a list of elements. A high surrogate takes the unit
      behind it along. */
  function Bytes(es: seq<Element>): Option<string>
    requires ValidElements(es)
  {
    if es == [] then Some("")
    else
      match es[0]
      case Itself(c) => Joined([c], Bytes(es[1..]))
      case Short(k) => Joined([Byte(LETTER_BYTES[k])], Bytes(es[1..]))
      case Unit(u, _) =>
        if 0xD800 <= u < 0xDC00 && |es| > 1 && es[1].Unit? then
          if PairTaken(u, es[1].u).None? then None else Joined(PairTaken(u, es[1].u).value, Bytes(es[2..]))
        else if UnitTaken(u).None? then None
        else Joined(UnitTaken(u).value, Bytes(es[1..]))
  }

  /** The value of a digit is its place, in either case. */
  lemma DigitExact(d: nat, upper: bool)
    requires d < 16
    ensures IsHex(Digit(d, upper)) && HexValue(Digit(d, upper)) == d
  {
  }

  /** There are no other digits. */
  lemma HexIsDigit(c: char)
    requires IsHex(c)
    ensures Digit(HexValue(c), 'A' <= c <= 'F') == c
  {
  }

  /** The letters and the bytes they stand for, and no others. */
  lemma LetterExact(c: char)
    ensures IsSimpleEscape(c) <==> exists k: nat :: k < 8 && LETTERS[k] == c
    ensures forall k: nat :: k < 8 && LETTERS[k] == c ==> SimpleEscape(c) as int == LETTER_BYTES[k]
  {
    if IsSimpleEscape(c) {
      var k := if c == '"' then 0 else if c == '\\' then 1 else if c == '/' then 2 else if c == 'b' then 3
               else if c == 'f' then 4 else if c == 'n' then 5 else if c == 'r' then 6 else 7;
      assert LETTERS[k] == c;
    }
  }

  /** The first element of a spelled text is a unit of the text. */
  lemma SpellFirst(e: Element, rest: string, newlines: bool)
    requires ValidElement(e)
    ensures var raw := Spell(e) + rest;
      && raw[|Spell(e)|..] == rest
      && (EscapedText(raw, newlines) <==> EscapedText(rest, newlines) && (newlines || e != Itself('\n')))
      && (StartsUnit(raw) <==> e.Unit?)
      && (e.Unit? ==> UnitValue(raw) == e.u)
  {
    hide IsHex, HexValue, IsSimpleEscape, Digit;
    var raw := Spell(e) + rest;
    assert raw[|Spell(e)|..] == rest && forall k :: 0 <= k < |Spell(e)| ==> raw[k] == Spell(e)[k];
    match e
    case Itself(c) =>
    case Short(k) => LetterExact(LETTERS[k]);
    case Unit(u, upper) =>
      DigitExact(u / 0x1000, upper.0);
      DigitExact(u / 0x100 % 16, upper.1);
      DigitExact(u / 0x10 % 16, upper.2);
      DigitExact(u % 16, upper.3);
      FourPlaces(u);
  }

  lemma FourPlaces(u: nat)
    requires u < 0x1_0000
    ensures u / 0x1000 < 16
    ensures 0x1000 * (u / 0x1000) + 0x100 * (u / 0x100 % 16) + 16 * (u / 0x10 % 16) + u % 16 == u
  {
    Quotients(u);
    Digits16(u);
    Digits16(u / 0x10);
    Digits16(u / 0x100);
  }

  lemma Digits16(x: nat)
    ensures x == 16 * (x / 16) + x % 16
  {
  }

  lemma Quotients(u: nat)
    ensures u / 0x100 == u / 0x10 / 16 && u / 0x1000 == u / 0x100 / 16
  {
  }

  /** Two-byte escapes and plain bytes. */
  lemma ShortTaken(e: Element, rest: string)
    requires ValidElement(e) && !e.Unit? && EscapedText(rest, true)
    ensures var raw := Spell(e) + rest;
      EscapedText(raw, true) && TakenSize(raw) == |Spell(e)| &&
      FirstTaken(raw) == Some(if e.Itself? then [e.c] else [Byte(LETTER_BYTES[e.k])])
  {
    hide IsSimpleEscape, EscapedText, StartsTwo;
    SpellFirst(e, rest, true);
    var raw := Spell(e) + rest;
    assert forall k :: 0 <= k < |Spell(e)| ==> raw[k] == Spell(e)[k];
    if e.Short? { LetterExact(LETTERS[e.k]); }
  }

  lemma SpelledFirst(es: seq<Element>)
    requires ValidElements(es) && es != []
    ensures ValidElement(es[0]) && ValidElements(es[1..]) && Spelled(es) == Spell(es[0]) + Spelled(es[1..])
  {
  }

  lemma NothingEscaped(newlines: bool)
    ensures EscapedText("", newlines)
  {
  }

  /** A spelled text is escaped, with a raw newline where an element is one. */
  lemma {:induction false} SpelledIsEscaped(es: seq<Element>, newlines: bool)
    requires ValidElements(es)
    ensures EscapedText(Spelled(es), newlines) <==> newlines || Itself('\n') !in es
    decreases |es|
  {
    hide EscapedText, Spell, ValidElements;
    if es == [] {
      NothingEscaped(newlines);
    } else {
      SpelledFirst(es);
      SpellFirst(es[0], Spelled(es[1..]), newlines);
      SpelledIsEscaped(es[1..], newlines);
    }
  }

  /** The elements behind the first one the decoder reads at once. */
  function FirstCount(es: seq<Element>): (n: nat)
    requires es != []
    ensures 1 <= n <= |es|
  {
    if |es| > 1 && es[0].Unit? && 0xD800 <= es[0].u < 0xDC00 && es[1].Unit? then 2 else 1
  }

  /** The decoder takes a spelled text element by element, and pairs together. */
  lemma FirstSpelled(es: seq<Element>)
    requires ValidElements(es) && es != []
    ensures var raw := Spelled(es);
      && raw != "" && EscapedText(raw, true) && ValidElements(es[FirstCount(es)..])
      && raw[TakenSize(raw)..] == Spelled(es[FirstCount(es)..])
      && Bytes(es) == (if FirstTaken(raw).None? then None
                       else Joined(FirstTaken(raw).value, Bytes(es[FirstCount(es)..])))
  {
    hide EscapedText, ValidElement, PairTaken, UnitTaken, StartsUnit, UnitValue, Digit;
    var e, rest := es[0], Spelled(es[1..]);
    SpelledFirst(es);
    SpelledIsEscaped(es, true);
    SpelledIsEscaped(es[1..], true);
    if e.Unit? {
      SpellFirst(e, rest, true);
      SpelledRest(es);
      assert Spelled(es)[6..] == rest;
      if FirstCount(es) == 2 {
        assert es[1..][1..] == es[2..];
        SpelledFirst(es[1..]);
        SpellFirst(es[1], Spelled(es[2..]), true);
        assert Spelled(es)[12..] == rest[6..];
      }
    } else {
      ShortTaken(e, rest);
      SpellFirst(e, rest, true);
    }
  }

  /** Behind a lone unit no unit starts. */
  lemma SpelledRest(es: seq<Element>)
    requires ValidElements(es) && es != []
    ensures StartsUnit(Spelled(es[1..])) <==> |es| > 1 && es[1].Unit?
    ensures |es| > 1 && es[1].Unit? ==> UnitValue(Spelled(es[1..])) == es[1].u
  {
    hide Spell, UnitValue, EscapedText;
    if |es| > 1 {
      SpelledFirst(es[1..]);
      SpellFirst(es[1], Spelled(es[1..][1..]), true);
    }
  }

  lemma {:induction false} SpelledIsTaken(es: seq<Element>)
    requires ValidElements(es)
    ensures EscapedText(Spelled(es), true) && Taken(Spelled(es)) == Bytes(es)
    decreases |es|
  {
    hide EscapedText, ValidElements, FirstTaken, TakenSize, FirstCount;
    SpelledIsEscaped(es, true);
    if es != [] {
      FirstSpelled(es);
      SpelledIsTaken(es[FirstCount(es)..]);
    }
  }

  /** Every text is decoded to the bytes of its elements, however they are spelled. */
  lemma SpelledDecodes(es: seq<Element>)
    requires ValidElements(es)
    ensures TextOf(Spelled(es)) == Bytes(es)
  {
    hide EscapedText, Taken, TextOf, Bytes, Spelled;
    SpelledIsTaken(es);
    TextIsTaken(Spelled(es));
  }

  /** The scanners accept the spelled texts and no others. */
  lemma {:induction false} EscapedIsSpelled(raw: string, newlines: bool) returns (es: seq<Element>)
    requires EscapedText(raw, newlines)
    ensures ValidElements(es) && Spelled(es) == raw && (newlines || Itself('\n') !in es)
    decreases |raw|
  {
    hide IsHex, HexValue, IsSimpleEscape, Digit;
    if raw == "" { return []; }
    var e, n := Itself(raw[0]), 1;
    if raw[0] == '\\' && raw[1] == 'u' {
      e := UnitOfDigits(raw);
      n := 6;
    } else if raw[0] == '\\' {
      LetterExact(raw[1]);
      var k: nat :| k < 8 && LETTERS[k] == raw[1];
      e, n := Short(k), 2;
    }
    assert raw == Spell(e) + raw[n..];
    es := EscapedIsSpelled(raw[n..], newlines);
    assert ([e] + es)[1..] == es;
    es := [e] + es;
  }

  /** A \u escape whose digits are any two of 22. */
  lemma UnitOfDigits(raw: string) returns (e: Element)
    requires StartsUnit(raw)
    ensures ValidElement(e) && Spell(e) == raw[..6]
  {
    hide IsHex, HexValue, Digit;
    HexIsDigit(raw[2]);
    HexIsDigit(raw[3]);
    HexIsDigit(raw[4]);
    HexIsDigit(raw[5]);
    DigitsOfValue(HexValue(raw[2]), HexValue(raw[3]), HexValue(raw[4]), HexValue(raw[5]));
    e := Unit(UnitValue(raw), ('A' <= raw[2] <= 'F', 'A' <= raw[3] <= 'F', 'A' <= raw[4] <= 'F', 'A' <= raw[5] <= 'F'));
    assert Spell(e) == raw[..6];
  }

  lemma DigitsOfValue(a: nat, b: nat, c: nat, d: nat)
    requires a < 16 && b < 16 && c < 16 && d < 16
    ensures var u := 0x1000 * a + 0x100 * b + 16 * c + d;
      u / 0x1000 == a && u / 0x100 % 16 == b && u / 0x10 % 16 == c && u % 16 == d
  {
    LastDigit(0x100 * a + 16 * b + c, d);
    LastDigit(16 * a + b, c);
    LastDigit(a, b);
  }

  lemma LastDigit(x: nat, d: nat)
    requires d < 16
    ensures (16 * x + d) / 16 == x && (16 * x + d) % 16 == d
    ensures (16 * x + d) / 0x100 == x / 16 && (16 * x + d) / 0x1000 == x / 0x100
  {
  }

  /** A \u escape of a unit below the surrogates gives the unit's UTF-8 octets exactly on
      three ranges, in whatever case its digits are. */
  lemma UnitDecodes(u: nat, upper: (bool, bool, bool, bool))
    requires u < 0xD800
    ensures TextOf(Spell(Unit(u, upper))) == Some(Octets(u)) <==> u < 0x80 || 0xC0 <= u < 0x400 || 0x800 <= u
  {
    hide Octets, TextOf, Spell;
    SpelledDecodes([Unit(u, upper)]);
    OneSpelled(Unit(u, upper));
    if 0x4C0 <= u < 0x800 {
      OctetsRoundTrip(u);
      OctetsRoundTrip(u - 0x400);
    }
  }

  lemma OneSpelled(e: Element)
    requires ValidElement(e)
    ensures ValidElements([e]) && Spelled([e]) == Spell(e)
    ensures e.Unit? && e.u < 0xD800 ==> Bytes([e]) == UnitTaken(e.u)
  {
    hide Spell, UnitTaken;
    if e.Unit? && UnitTaken(e.u).Some? { assert UnitTaken(e.u).value + "" == UnitTaken(e.u).value; }
    assert Spell(e) + "" == Spell(e);
  }

  /** A scalar value beyond the first plane, spelled as a surrogate pair, gives its octets. */
  lemma PairDecodes(v: nat, first: (bool, bool, bool, bool), second: (bool, bool, bool, bool))
    requires 0x1_0000 <= v < 0x11_0000
    ensures var high := 0xD800 + (v - 0x1_0000) / 0x400; var low := 0xDC00 + (v - 0x1_0000) % 0x400;
      TextOf(Spell(Unit(high, first)) + Spell(Unit(low, second))) == Some(Octets(v))
  {
    hide Octets, TextOf, Spell, Joined;
    var high := Unit(0xD800 + (v - 0x1_0000) / 0x400, first);
    var low := Unit(0xDC00 + (v - 0x1_0000) % 0x400, second);
    var es := [high, low];
    SpelledDecodes(es);
    OneSpelled(low);
    assert es[1..] == [low] && es[2..] == [];
    JoinedNothing(Octets(v));
  }

  lemma JoinedNothing(b: string)
    ensures Joined(b, Some("")) == Some(b)
  {
    assert b + "" == b;
  }
}
