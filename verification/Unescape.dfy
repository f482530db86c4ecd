/** edJSON_string_unescape: the string decoder, also run in place. */
module Unescape {
  import opened CText
  import opened Utf8
  import opened JsonLexer
  import opened JsonTokens

  const NO_MEMORY := -1
  const NO_INPUT := -2
  const BAD_STRING := -3

  function HexValue(c: char): (v: nat)
    requires IsHex(c)
    ensures v < 16
  {
    if '0' <= c <= '9' then c as int - '0' as int
    else if 'a' <= c <= 'f' then c as int - 'a' as int + 10
    else c as int - 'A' as int + 10
  }

  /** A value read from hexadecimal digits, and the offset after them. */
  datatype Hex = Hex(value: nat, next: nat) | NotHex

  /** The digit loop: up to k digits, ending early where the span ends. */
  function ReadHex(src: string, n: nat, si: nat, k: nat, x: nat): (r: Hex)
    requires n <= |src|
    ensures r.Hex? ==> si <= r.next <= si + k && (si <= n ==> r.next <= n)
    decreases k
  {
    if k == 0 || si >= n then Hex(x, si)
    else if !IsHex(src[si]) then NotHex
    else ReadHex(src, n, si + 1, k - 1, 16 * x + HexValue(src[si]))
  }

  /** The code point of a \u escape whose digits start at si, with its second half if
      the first unit is 0xD800 or more. */
  function ReadUnicode(src: string, n: nat, si: nat): (r: Hex)
    requires n < |src| && si <= n + 1
    ensures r.Hex? ==> si <= r.next && (si <= n ==> r.next <= n)
  {
    match ReadHex(src, n, si, 4, 0)
    case NotHex => NotHex
    case Hex(u, p) =>
      if u < 0xD800 then Hex(u, p)
      else if p + 2 > n || src[p] != '\\' || src[p + 1] != 'u' then NotHex
      else
        match ReadHex(src, n, p + 2, 4, 0)
        case NotHex => NotHex
        case Hex(x, q) => if x < 0xDC00 then NotHex else Hex((u - 0xD800) * 0x400 + (x - 0xDC00) + 0x1_0000, q)
  }

  /** Octets the code writes for a code point. */
  function Width(u: nat): (w: nat)
    ensures 1 <= w <= 4
  {
    if u < 0x80 then 1 else if u < 0x800 then 2 else if u < 0x1_0000 then 3 else 4
  }

  /** The conversion as written: the two-octet form keeps only four of its five high
      bits, and refuses a lead octet below 0xC3. */
  function Encode(u: nat): (r: Option<string>)
    ensures r.Some? ==> IsBytes(r.value) && |r.value| == Width(u)
  {
    if u < 0x80 then Some([Byte(u)])
    else if u < 0x800 then
      if 0xC0 + u / 0x40 % 0x10 < 0xC3 then None
      else Some([Byte(0xC0 + u / 0x40 % 0x10), Byte(0x80 + u % 0x40)])
    else if u < 0x1_0000 then
      Some([Byte(0xE0 + u / 0x1000 % 0x10), Byte(0x80 + u / 0x40 % 0x40), Byte(0x80 + u % 0x40)])
    else if u < 0x11_0000 then
      Some([Byte(0xF0 + u / 0x4_0000 % 8), Byte(0x80 + u / 0x1000 % 0x40), Byte(0x80 + u / 0x40 % 0x40),
            Byte(0x80 + u % 0x40)])
    else None
  }

  /** A byte after a backslash that stands for one byte. */
  function SimpleEscape(c: char): char
    requires IsSimpleEscape(c)
  {
    match c
    case 'r' => '\r'
    case 'n' => '\n'
    case 't' => '\t'
    case 'b' => '\U{8}'
    case 'f' => '\U{c}'
    case _ => c
  }

  /** One pass of the loop: the byte or code point at si, and the next offset. */
  datatype Unit = Plain(c: char, next: nat) | Code(u: nat, next: nat) | BadUnit

  /** src holds the n bytes of the span and at least one byte after it. */
  function UnitAt(src: string, n: nat, si: nat): (r: Unit)
    requires si < n < |src|
    ensures !r.BadUnit? ==> si < r.next <= n + 1
  {
    if src[si] != '\\' then Plain(src[si], si + 1)
    else if IsSimpleEscape(src[si + 1]) then Plain(SimpleEscape(src[si + 1]), si + 2)
    else if src[si + 1] == 'u' then
      match ReadUnicode(src, n, si + 2)
      case NotHex => BadUnit
      case Hex(u, p) => Code(u, p)
    else BadUnit
  }

  datatype Decoded = Decoded(bytes: string) | NoRoom | Malformed

  function Prepended(bytes: string, d: Decoded): Decoded {
    match d
    case Decoded(rest) => Decoded(bytes + rest)
    case other => other
  }

  /** The decoding loop from si on, with di bytes of limit already written. */
  function Decode(src: string, n: nat, si: nat, di: nat, limit: nat): Decoded
    requires n < |src| && si <= n + 1
    decreases n + 1 - si
  {
    if si >= n then Decoded("")
    else if di >= limit then NoRoom
    else
      match UnitAt(src, n, si)
      case BadUnit => Malformed
      case Plain(c, next) => Prepended([c], Decode(src, n, next, di + 1, limit))
      case Code(u, next) =>
        if u >= 0x11_0000 then Malformed
        else if Width(u) > 1 && di + Width(u) >= limit then NoRoom
        else
          match Encode(u)
          case None => Malformed
          case Some(bytes) => Prepended(bytes, Decode(src, n, next, di + Width(u), limit))
  }

  /** The decoder without a destination: the bytes an escaped text stands for. */
  function Text(src: string, n: nat, si: nat): Option<string>
    requires n < |src| && si <= n + 1
    decreases n + 1 - si
  {
    if si >= n then Some("")
    else
      match UnitAt(src, n, si)
      case BadUnit => None
      case Plain(c, next) => Joined([c], Text(src, n, next))
      case Code(u, next) =>
        match Encode(u)
        case None => None
        case Some(bytes) => Joined(bytes, Text(src, n, next))
  }

  function Joined(bytes: string, rest: Option<string>): Option<string> {
    match rest
    case None => None
    case Some(t) => Some(bytes + t)
  }

  function AsDecoded(t: Option<string>): Decoded {
    match t
    case None => Malformed
    case Some(b) => Decoded(b)
  }

  /** A bound on what d more digits make of x. */
  function HexCap(x: nat, d: nat): nat
    decreases d
  {
    if d == 0 then x + 1 else HexCap(16 * x + 15, d - 1)
  }

  lemma {:induction false} HexCapMonotone(x: nat, y: nat, d: nat)
    requires x <= y
    ensures HexCap(x, d) <= HexCap(y, d)
    decreases d
  {
    if d > 0 { HexCapMonotone(16 * x + 15, 16 * y + 15, d - 1); }
  }

  lemma {:induction false} HexBound(src: string, n: nat, si: nat, k: nat, x: nat)
    requires n <= |src| && ReadHex(src, n, si, k, x).Hex?
    ensures ReadHex(src, n, si, k, x).value < HexCap(x, ReadHex(src, n, si, k, x).next - si)
    decreases k
  {
    if k > 0 && si < n {
      var x' := 16 * x + HexValue(src[si]);
      HexBound(src, n, si + 1, k - 1, x');
      HexCapMonotone(x', 16 * x + 15, ReadHex(src, n, si, k, x).next - si - 1);
    }
  }

  /** What a unit stands for takes no more room than the unit: strictly less when it
      takes more than one byte. */
  lemma UnitShrinks(src: string, n: nat, si: nat)
    requires si < n < |src| && UnitAt(src, n, si).Code?
    ensures UnitAt(src, n, si).u < 0x11_0000 && Width(UnitAt(src, n, si).u) > 1
        ==> si + Width(UnitAt(src, n, si).u) < UnitAt(src, n, si).next <= n
  {
    var r := ReadHex(src, n, si + 2, 4, 0);
    HexBound(src, n, si + 2, 4, 0);
    var d := r.next - (si + 2);
    assert HexCap(0, 0) == 1 && HexCap(0, 1) == 16;
    assert HexCap(0, 2) == HexCap(15, 1) == 0x100 && HexCap(0, 3) == HexCap(15, 2) == HexCap(0xFF, 1) == 0x1000;
    if r.value >= 0xD800 {
      assert d == 4;
      HexBound(src, n, r.next + 2, 4, 0);
    } else if r.value >= 0x80 {
      assert d >= 2 && (d == 2 ==> r.value < 0x100);
    }
  }

  /** In place (the limit is the size of the span) the decoder never runs out of room:
      it gives exactly the text of the span, which is no longer than the span. */
  lemma {:induction false} InPlaceIsText(src: string, n: nat, si: nat, di: nat)
    requires n < |src| && si <= n + 1 && di <= si && di <= n
    ensures Decode(src, n, si, di, n) == AsDecoded(Text(src, n, si))
    ensures Text(src, n, si).Some? ==> di + |Text(src, n, si).value| <= n
    decreases n + 1 - si
  {
    if si < n {
      match UnitAt(src, n, si)
      case BadUnit =>
      case Plain(c, next) => InPlaceIsText(src, n, next, di + 1);
      case Code(u, next) =>
        UnitShrinks(src, n, si);
        if Encode(u).Some? { InPlaceIsText(src, n, next, di + Width(u)); }
    }
  }

  /** With a destination that the text does not fill, the decoder gives the text. */
  lemma {:induction false} RoomyIsText(src: string, n: nat, si: nat, di: nat, limit: nat)
    requires n < |src| && si <= n + 1 && Text(src, n, si).Some? && di + |Text(src, n, si).value| < limit
    ensures Decode(src, n, si, di, limit) == Decoded(Text(src, n, si).value)
    decreases n + 1 - si
  {
    if si < n {
      match UnitAt(src, n, si)
      case Plain(c, next) => RoomyIsText(src, n, next, di + 1, limit);
      case Code(u, next) => RoomyIsText(src, n, next, di + Width(u), limit);
    }
  }

  /** The last unit of the span stands for one byte. */
  predicate EndsNarrow(src: string, n: nat, si: nat)
    requires n < |src| && si <= n + 1
    decreases n + 1 - si
  {
    si >= n
    || match UnitAt(src, n, si)
       case BadUnit => false
       case Plain(_, next) => EndsNarrow(src, n, next)
       case Code(u, next) => if next >= n then Width(u) == 1 else EndsNarrow(src, n, next)
  }

  /** The decoder succeeds exactly when the text leaves room, or fills the destination
      with a last unit of one byte. */
  lemma {:induction false} DecodeExact(src: string, n: nat, si: nat, di: nat, limit: nat)
    requires n < |src| && si <= n + 1 && di <= limit
    ensures Decode(src, n, si, di, limit).Decoded? <==>
      Text(src, n, si).Some? && (di + |Text(src, n, si).value| < limit
                                 || (di + |Text(src, n, si).value| == limit && EndsNarrow(src, n, si)))
    ensures Decode(src, n, si, di, limit).Decoded? ==>
      Text(src, n, si) == Some(Decode(src, n, si, di, limit).bytes)
    decreases n + 1 - si
  {
    hide ReadUnicode;
    if si < n && di < limit {
      match UnitAt(src, n, si)
      case BadUnit =>
      case Plain(c, next) => DecodeExact(src, n, next, di + 1, limit);
      case Code(u, next) =>
        if Encode(u).Some? && di + Width(u) <= limit { DecodeExact(src, n, next, di + Width(u), limit); }
    } else if si < n && Text(src, n, si).Some? {
      TextNotEmpty(src, n, si);
    }
  }

  /** A text that decodes is never called malformed, and one that does not is where the
      destination has as much room as the span. */
  lemma {:induction false} DecodeCode(src: string, n: nat, si: nat, di: nat, limit: nat)
    requires n < |src| && si <= n + 1
    ensures Text(src, n, si).Some? ==> !Decode(src, n, si, di, limit).Malformed?
    ensures Text(src, n, si).None? && di + n <= limit + si ==> Decode(src, n, si, di, limit).Malformed?
    decreases n + 1 - si
  {
    hide ReadUnicode;
    if si < n && di < limit {
      match UnitAt(src, n, si)
      case BadUnit =>
      case Plain(c, next) => DecodeCode(src, n, next, di + 1, limit);
      case Code(u, next) =>
        UnitShrinks(src, n, si);
        DecodeCode(src, n, next, di + Width(u), limit);
    }
  }

  lemma TextNotEmpty(src: string, n: nat, si: nat)
    requires si < n < |src| && Text(src, n, si).Some?
    ensures Text(src, n, si).value != ""
  {
  }

  /** The scalar values the decoder converts correctly. */
  predicate Supported(u: nat) {
    u < 0x80 || 0xC0 <= u < 0x400 || 0x800 <= u
  }

  /** The conversion agrees with RFC 3629 exactly on the supported scalar values. */
  lemma EncodeExact(u: nat)
    requires IsScalar(u)
    ensures Encode(u) == Some(Octets(u)) <==> Supported(u)
  {
    if 0x80 <= u < 0x800 {
      var lead := u / 0x40;
      assert lead < 0x20;
      if Supported(u) {
        assert lead % 0x10 == lead;
      } else if Encode(u).Some? {
        assert Encode(u).value[0] as int == 0xC0 + lead % 0x10 && Octets(u)[0] as int == 0xC0 + lead;
      }
    } else if 0x800 <= u < 0x1_0000 {
      assert u / 0x1000 % 0x10 == u / 0x1000;
    } else if 0x1_0000 <= u {
      assert u / 0x4_0000 % 8 == u / 0x4_0000;
    }
  }

  /** src has, at si, \\u and four digits of value u. */
  predicate IsUnicodeEscape(src: string, n: nat, si: nat, u: nat) {
    && si + 6 <= n < |src| && src[si] == '\\' && src[si + 1] == 'u'
    && IsHex(src[si + 2]) && IsHex(src[si + 3]) && IsHex(src[si + 4]) && IsHex(src[si + 5])
    && u == 0x1000 * HexValue(src[si + 2]) + 0x100 * HexValue(src[si + 3])
            + 16 * HexValue(src[si + 4]) + HexValue(src[si + 5])
  }

  lemma ReadFour(src: string, n: nat, si: nat, u: nat)
    requires IsUnicodeEscape(src, n, si, u)
    ensures ReadHex(src, n, si + 2, 4, 0) == Hex(u, si + 6)
  {
    var a, b, c, d := HexValue(src[si + 2]), HexValue(src[si + 3]), HexValue(src[si + 4]), HexValue(src[si + 5]);
    assert ReadHex(src, n, si + 6, 0, u) == Hex(u, si + 6);
    assert ReadHex(src, n, si + 5, 1, 0x100 * a + 16 * b + c) == Hex(u, si + 6);
    assert ReadHex(src, n, si + 4, 2, 16 * a + b) == Hex(u, si + 6);
    assert ReadHex(src, n, si + 3, 3, a) == Hex(u, si + 6);
  }

  /** One unit below the surrogates: decoded to its RFC 3629 octets exactly when supported. */
  lemma PlainUnitExact(src: string, n: nat, si: nat, u: nat)
    requires IsUnicodeEscape(src, n, si, u) && u < 0xD800
    ensures UnitAt(src, n, si) == Code(u, si + 6)
    ensures Encode(u) == Some(Octets(u)) <==> u < 0x80 || 0xC0 <= u < 0x400 || 0x800 <= u
  {
    ReadFour(src, n, si, u);
    EncodeExact(u);
  }

  /** The scalar value of a surrogate pair (RFC 8259 section 7). */
  function PairValue(high: nat, low: nat): nat
    requires 0xD800 <= high < 0xDC00 && 0xDC00 <= low < 0xE000
  {
    0x1_0000 + (high - 0xD800) * 0x400 + (low - 0xDC00)
  }

  /** Two units of which the first is 0xD800 or more. A well-formed pair gives the
      octets of its scalar value; a low first unit is refused outright. */
  lemma PairExact(src: string, n: nat, si: nat, high: nat, low: nat)
    requires IsUnicodeEscape(src, n, si, high) && IsUnicodeEscape(src, n, si + 6, low) && 0xD800 <= high
    ensures 0xDC00 <= low ==>
      UnitAt(src, n, si) == Code(0x1_0000 + (high - 0xD800) * 0x400 + (low - 0xDC00), si + 12)
    ensures low < 0xDC00 ==> UnitAt(src, n, si) == BadUnit
    ensures high < 0xDC00 && 0xDC00 <= low < 0xE000 ==>
      IsScalar(PairValue(high, low)) && PairValue(high, low) >= 0x1_0000
      && UnitAt(src, n, si) == Code(PairValue(high, low), si + 12)
      && Encode(PairValue(high, low)) == Some(Octets(PairValue(high, low)))
    ensures 0xDC00 <= high ==> Text(src, n, si) == None
  {
    hide ReadHex, HexValue, Octets;
    ReadFour(src, n, si, high);
    ReadFour(src, n, si + 6, low);
    if high < 0xDC00 && 0xDC00 <= low < 0xE000 { EncodeExact(PairValue(high, low)); }
  }

  /** A first unit of 0xD800 or more that no second unit follows is refused. */
  lemma LoneUnitRefused(src: string, n: nat, si: nat, high: nat)
    requires IsUnicodeEscape(src, n, si, high) && 0xD800 <= high
    requires n < si + 8 || src[si + 6] != '\\' || src[si + 7] != 'u'
    ensures Text(src, n, si) == None
  {
    ReadFour(src, n, si, high);
  }

  /** In an escaped text, a unit and what follows it stay inside the span: what the
      byte after the span is does not matter. */
  lemma UnitStaysInside(src: string, alt: string, n: nat, si: nat)
    requires si < n < |src| && n < |alt| && EscapedText(src[si..n], true)
    requires forall k :: 0 <= k < n ==> alt[k] == src[k]
    ensures UnitAt(alt, n, si) == UnitAt(src, n, si)
    ensures !UnitAt(src, n, si).BadUnit? ==>
      UnitAt(src, n, si).next <= n && EscapedText(src[UnitAt(src, n, si).next..n], true)
  {
    var raw := src[si..n];
    if src[si] != '\\' {
      assert raw[1..] == src[si + 1..n];
    } else if src[si + 1] != 'u' {
      assert raw[2..] == src[si + 2..n];
    } else {
      FourDigits(src, alt, n, si);
      assert raw[6..] == src[si + 6..n];
      var u := ReadHex(src, n, si + 2, 4, 0).value;
      if 0xD800 <= u && si + 8 <= n && src[si + 6] == '\\' && src[si + 7] == 'u' {
        assert raw[6..][6..] == src[si + 12..n];
        FourDigits(src, alt, n, si + 6);
      }
    }
  }

  /** The four digits of a \\u escape in an escaped text. */
  lemma FourDigits(src: string, alt: string, n: nat, si: nat)
    requires si + 2 <= n < |src| && n < |alt| && EscapedText(src[si..n], true) && src[si] == '\\' && src[si + 1] == 'u'
    requires forall k :: 0 <= k < n ==> alt[k] == src[k]
    ensures si + 6 <= n && ReadHex(src, n, si + 2, 4, 0).Hex? && ReadHex(src, n, si + 2, 4, 0).next == si + 6
    ensures ReadHex(alt, n, si + 2, 4, 0) == ReadHex(src, n, si + 2, 4, 0)
  {
    var raw := src[si..n];
    assert |raw| >= 6;
    assert raw[2] == src[si + 2] && raw[3] == src[si + 3] && raw[4] == src[si + 4] && raw[5] == src[si + 5];
    var u := 0x1000 * HexValue(src[si + 2]) + 0x100 * HexValue(src[si + 3])
             + 16 * HexValue(src[si + 4]) + HexValue(src[si + 5]);
    ReadFour(src, n, si, u);
    ReadFour(alt, n, si, u);
  }

  /** The bytes an escaped text stands for, when its escapes are all convertible. */
  function TextOf(raw: string): Option<string> {
    Text(raw + "\"", |raw|, 0)
  }

  lemma {:induction false} TextStaysInside(src: string, alt: string, n: nat, si: nat)
    requires si <= n < |src| && n < |alt| && EscapedText(src[si..n], true)
    requires forall k :: 0 <= k < n ==> alt[k] == src[k]
    ensures Text(alt, n, si) == Text(src, n, si)
    decreases n - si
  {
    if si < n {
      UnitStaysInside(src, alt, n, si);
      var u := UnitAt(src, n, si);
      if !u.BadUnit? { TextStaysInside(src, alt, n, u.next); }
    }
  }

  /** A span that holds an escaped text decodes to the text, whatever follows it. */
  lemma SpanText(src: string, n: nat, raw: string)
    requires n < |src| && src[..n] == raw && EscapedText(raw, true)
    ensures Text(src, n, 0) == TextOf(raw)
  {
    assert src[0..n] == raw;
    assert forall k :: 0 <= k < n ==> (raw + "\"")[k] == src[..n][k] == src[k];
    TextStaysInside(src, raw + "\"", n, 0);
  }

  /** The span of a scanned string value ends on an escape boundary: decoding it, in
      place or not, depends on nothing behind it and never runs out of room. */
  lemma ScannedSpan(t: string, j: nat, src: string)
    requires j <= |t| && ScanString(t, j).Ok? && ScanString(t, j).end < |t|
    requires var n := ScanString(t, j).end - j; n < |src| && src[..n] == t[j..ScanString(t, j).end]
    ensures var n := ScanString(t, j).end - j;
      Text(src, n, 0) == TextOf(src[..n]) && Decode(src, n, 0, 0, n) == AsDecoded(TextOf(src[..n]))
  {
    hide ScanString, EscapedText, Text, Decode;
    var n := ScanString(t, j).end - j;
    ScanOnlyAccepts(t, j);
    EscapedTextWiden(src[..n]);
    SpanText(src, n, src[..n]);
    InPlaceIsText(src, n, 0, 0);
  }

  function HexDigit(v: nat): (c: char)
    requires v < 16
    ensures IsHex(c) && HexValue(c) == v
  {
    if v < 10 then ('0' as int + v) as char else ('a' as int + v - 10) as char
  }

  /** The escapes RFC 8259 section 7 asks for: quote, backslash and control characters. */
  function EscapeByte(c: char): string {
    match c
    case '"' => "\\\""
    case '\\' => "\\\\"
    case '\U{8}' => "\\b"
    case '\U{c}' => "\\f"
    case '\n' => "\\n"
    case '\r' => "\\r"
    case '\t' => "\\t"
    case _ =>
      if c as int < 0x20 then "\\u00" + [HexDigit(c as int / 16), HexDigit(c as int % 16)] else [c]
  }

  function Escape(b: string): string {
    if b == "" then "" else EscapeByte(b[0]) + Escape(b[1..])
  }

  /** The escaped form of a byte is one unit, which stands for that byte. */
  lemma EscapeByteUnit(src: string, n: nat, si: nat, c: char)
    requires Reads(src, si, EscapeByte(c)) && si + |EscapeByte(c)| <= n < |src|
    ensures si < n && UnitAt(src, n, si) == if c as int < 0x20 && |EscapeByte(c)| == 6 then Code(c as int, si + 6)
                                  else Plain(c, si + |EscapeByte(c)|)
  {
    var w := EscapeByte(c);
    assert src[si + 0] == w[0];
    if |w| > 1 { assert src[si + 1] == w[1]; }
    if |w| == 6 {
      assert src[si + 2] == w[2] && src[si + 3] == w[3] && src[si + 4] == w[4] && src[si + 5] == w[5];
      ReadFour(src, n, si, c as int);
    }
  }

  lemma {:induction false} EscapeDecodes(src: string, n: nat, si: nat, b: string)
    requires Reads(src, si, Escape(b)) && si + |Escape(b)| == n < |src|
    ensures Text(src, n, si) == Some(b)
    decreases |b|
  {
    hide EscapeByte, UnitAt;
    if b != "" {
      var w := EscapeByte(b[0]);
      ReadsSplit(src, si, w, Escape(b[1..]));
      EscapeByteUnit(src, n, si, b[0]);
      EscapeDecodes(src, n, si + |w|, b[1..]);
      assert b == [b[0]] + b[1..];
      if b[0] as int < 0x20 { assert Encode(b[0] as int) == Some([b[0]]); }
    }
  }

  lemma {:induction false} EscapeIsEscaped(b: string)
    ensures EscapedText(Escape(b), false)
    decreases |b|
  {
    if b != "" {
      var w := EscapeByte(b[0]);
      EscapeIsEscaped(b[1..]);
      assert Escape(b)[|w|..] == Escape(b[1..]);
      assert forall k :: 0 <= k < |w| ==> Escape(b)[k] == w[k];
    }
  }

  /** Escape, scan, unescape is the identity: a quoted escaped string is scanned to
      exactly its closing quote, and the span decodes to the original bytes. */
  lemma EscapeScanUnescape(t: string, j: nat, b: string)
    requires Reads(t, j, "\"" + (Escape(b) + "\""))
    ensures ScanString(t, j + 1) == Ok(j + 1 + |Escape(b)|)
    ensures j + 1 + |Escape(b)| < |t| && TextOf(t[j + 1..j + 1 + |Escape(b)|]) == Some(b)
  {
    hide Escape, EscapedText, ScanString, Text;
    var raw := Escape(b);
    ReadsSplit(t, j, "\"", raw + "\"");
    ReadsSplit(t, j + 1, raw, "\"");
    assert t[j + 1 + |raw| + 0] == "\""[0];
    EscapeIsEscaped(b);
    ScanAccepts(t, j + 1, raw);
    ReadsSlice(t, j + 1, raw);
    assert Reads(raw + "\"", 0, raw);
    EscapeDecodes(raw + "\"", |raw|, 0, b);
  }
}
