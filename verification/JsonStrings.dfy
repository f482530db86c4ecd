/** What an escaped text means (RFC 8259 section 7, RFC 3629 section 3), and where the
    string decoder agrees. */
module JsonStrings {
  import opened CText
  import opened Utf8
  import opened JsonLexer
  import opened JsonTokens
  import opened Unescape

  /** The text starts with a \u escape. */
  predicate StartsUnit(raw: string) {
    |raw| >= 6 && raw[0] == '\\' && raw[1] == 'u' && IsHex(raw[2]) && IsHex(raw[3]) && IsHex(raw[4]) && IsHex(raw[5])
  }

  /** The value of its four digits. */
  function UnitValue(raw: string): (u: nat)
    requires StartsUnit(raw)
    ensures u < 0x1_0000
  {
    0x1000 * HexValue(raw[2]) + 0x100 * HexValue(raw[3]) + 16 * HexValue(raw[4]) + HexValue(raw[5])
  }

  predicate IsHigh(u: nat) {
    0xD800 <= u < 0xDC00
  }

  predicate IsLow(u: nat) {
    0xDC00 <= u < 0xE000
  }

  /** The text starts with a surrogate pair. */
  predicate StartsPair(raw: string) {
    StartsUnit(raw) && IsHigh(UnitValue(raw)) && StartsUnit(raw[6..]) && IsLow(UnitValue(raw[6..]))
  }

  /** The bytes the first element of a text stands for, if it is well formed, and the
      rest of the text behind it. */
  function FirstMeant(raw: string): Option<string>
    requires raw != "" && EscapedText(raw, true)
  {
    if raw[0] != '\\' then Some([raw[0]])
    else if raw[1] != 'u' then Some([SimpleEscape(raw[1])])
    else if StartsPair(raw) then Some(Octets(PairValue(UnitValue(raw), UnitValue(raw[6..]))))
    else if IsScalar(UnitValue(raw)) then Some(Octets(UnitValue(raw)))
    else None
  }

  function FirstSize(raw: string): (n: nat)
    requires raw != "" && EscapedText(raw, true)
    ensures 1 <= n <= |raw|
  {
    if raw[0] != '\\' then 1 else if raw[1] != 'u' then 2 else if StartsPair(raw) then 12 else 6
  }

  lemma FirstRest(raw: string)
    requires raw != "" && EscapedText(raw, true)
    ensures EscapedText(raw[FirstSize(raw)..], true)
  {
    UnitRest(raw);
    if StartsPair(raw) {
      UnitRest(raw[6..]);
      assert raw[6..][6..] == raw[12..];
    }
  }

  /** The bytes a whole text stands for; a lone surrogate stands for nothing. */
  function Meant(raw: string): Option<string>
    requires EscapedText(raw, true)
    decreases |raw|
  {
    if raw == "" then Some("")
    else
      FirstRest(raw);
      if FirstMeant(raw).None? then None else Joined(FirstMeant(raw).value, Meant(raw[FirstSize(raw)..]))
  }

  /** A \u escape the decoder converts: a single unit in three ranges, or a pair. */
  predicate FirstSupported(raw: string)
    requires raw != "" && EscapedText(raw, true)
  {
    raw[0] != '\\' || raw[1] != 'u' || StartsPair(raw)
    || (var u := UnitValue(raw); u < 0x80 || 0xC0 <= u < 0x400 || 0x800 <= u < 0xD800)
  }

  predicate AllSupported(raw: string)
    requires EscapedText(raw, true)
    decreases |raw|
  {
    raw == "" || (FirstSupported(raw) && (FirstRest(raw); AllSupported(raw[FirstSize(raw)..])))
  }

  /** A high surrogate, then a unit too large to be a low one: the decoder takes it. */
  predicate StartsLoose(raw: string) {
    StartsUnit(raw) && IsHigh(UnitValue(raw)) && StartsUnit(raw[6..]) && 0xE000 <= UnitValue(raw[6..])
  }

  predicate AnyLoose(raw: string)
    requires EscapedText(raw, true)
    decreases |raw|
  {
    raw != "" && (StartsLoose(raw) || (FirstRest(raw); AnyLoose(raw[FirstSize(raw)..])))
  }

  /** The bytes the decoder takes a single unit for. From 0x400 to 0x7FF it keeps four of
      the five high bits; units of the lead octets 0xC0 to 0xC2 it refuses. */
  function UnitTaken(u: nat): Option<string> {
    if u < 0x80 || 0xC0 <= u < 0x400 || 0x800 <= u < 0xD800 then Some(Octets(u))
    else if 0x4C0 <= u < 0x800 then Some(Octets(u - 0x400))
    else None
  }

  /** A high surrogate and any unit behind it: what the second unit exceeds the low
      surrogates by is carried over to the first. */
  function PairTaken(high: nat, low: nat): Option<string>
    requires IsHigh(high)
  {
    if low < 0xDC00 then None
    else
      var carry := (low - 0xDC00) / 0x400;
      if high + carry >= 0xDC00 then None
      else Some(Octets(PairValue(high + carry, 0xDC00 + (low - 0xDC00) % 0x400)))
  }

  /** A high surrogate with a unit behind it. */
  predicate StartsTwo(raw: string) {
    StartsUnit(raw) && IsHigh(UnitValue(raw)) && StartsUnit(raw[6..])
  }

  function FirstTaken(raw: string): Option<string>
    requires raw != "" && EscapedText(raw, true)
  {
    if raw[0] != '\\' then Some([raw[0]])
    else if raw[1] != 'u' then Some([SimpleEscape(raw[1])])
    else if StartsTwo(raw) then PairTaken(UnitValue(raw), UnitValue(raw[6..]))
    else UnitTaken(UnitValue(raw))
  }

  function TakenSize(raw: string): (n: nat)
    requires raw != "" && EscapedText(raw, true)
    ensures 1 <= n <= |raw|
  {
    if raw[0] != '\\' then 1 else if raw[1] != 'u' then 2 else if StartsTwo(raw) then 12 else 6
  }

  lemma TakenRest(raw: string)
    requires raw != "" && EscapedText(raw, true)
    ensures EscapedText(raw[TakenSize(raw)..], true)
  {
    UnitRest(raw);
    if StartsTwo(raw) {
      UnitRest(raw[6..]);
      assert raw[6..][6..] == raw[12..];
    }
  }

  /** The bytes the decoder takes a whole text for. */
  function Taken(raw: string): Option<string>
    requires EscapedText(raw, true)
    decreases |raw|
  {
    if raw == "" then Some("")
    else
      TakenRest(raw);
      if FirstTaken(raw).None? then None else Joined(FirstTaken(raw).value, Taken(raw[TakenSize(raw)..]))
  }

  lemma UnitInSpan(src: string, n: nat, si: nat)
    requires si < n < |src| && StartsUnit(src[si..n])
    ensures IsUnicodeEscape(src, n, si, UnitValue(src[si..n]))
  {
    var raw := src[si..n];
    assert raw[0] == src[si] && raw[1] == src[si + 1] && raw[2] == src[si + 2] && raw[3] == src[si + 3];
    assert raw[4] == src[si + 4] && raw[5] == src[si + 5];
  }

  lemma TextStep(src: string, n: nat, si: nat)
    requires si < n < |src|
    ensures Text(src, n, si) == match UnitAt(src, n, si)
      case BadUnit => None
      case Plain(c, next) => Joined([c], Text(src, n, next))
      case Code(u, next) => if Encode(u).Some? then Joined(Encode(u).value, Text(src, n, next)) else None
  {
  }

  lemma TextEnds(src: string, n: nat, si: nat)
    requires n <= si <= n + 1 && n < |src|
    ensures Text(src, n, si) == Some("")
  {
  }

  /** The conversion of a unit below the surrogates. */
  lemma EncodeTaken(u: nat)
    requires u < 0xD800
    ensures Encode(u) == UnitTaken(u)
  {
    hide Encode, Octets;
    if 0x400 <= u < 0x800 {
      EncodeFolds(u);
      EncodeExact(u - 0x400);
      if 0x480 <= u < 0x4C0 { EncodeLow(u - 0x400); }
    } else if 0x80 <= u < 0xC0 {
      EncodeLow(u);
    } else {
      EncodeExact(u);
    }
  }

  lemma EncodeFolds(u: nat)
    requires 0x400 <= u < 0x800
    ensures Encode(u) == if u < 0x480 then None else Encode(u - 0x400)
  {
    var lead := u / 0x40;
    assert 0x10 <= lead < 0x20 && lead % 0x10 == lead - 0x10;
    assert (u - 0x400) / 0x40 == lead - 0x10 && (u - 0x400) % 0x40 == u % 0x40;
  }

  lemma EncodeLow(u: nat)
    requires 0x80 <= u < 0xC0
    ensures Encode(u) == None
  {
    assert u / 0x40 == 2;
  }

  /** The conversion of a high surrogate with a unit that is not below the low ones. */
  lemma EncodePair(high: nat, low: nat)
    requires IsHigh(high) && 0xDC00 <= low < 0x1_0000
    ensures Encode(0x1_0000 + (high - 0xD800) * 0x400 + (low - 0xDC00)) == PairTaken(high, low)
  {
    hide Encode, Octets;
    var carry, rest := (low - 0xDC00) / 0x400, 0xDC00 + (low - 0xDC00) % 0x400;
    var u := 0x1_0000 + (high - 0xD800) * 0x400 + (low - 0xDC00);
    assert u == 0x1_0000 + (high + carry - 0xD800) * 0x400 + (rest - 0xDC00);
    if high + carry < 0xDC00 {
      assert u == PairValue(high + carry, rest);
      EncodeExact(u);
    } else {
      TooLarge(u);
    }
  }

  lemma TooLarge(u: nat)
    requires 0x11_0000 <= u
    ensures Encode(u) == None
  {
  }

  /** Of the first element the decoder reads what it takes it for, and goes on behind. */
  lemma FirstUnit(src: string, n: nat, si: nat)
    requires si < n < |src| && EscapedText(src[si..n], true)
    ensures var raw := src[si..n]; var next := si + TakenSize(raw);
      next <= n && Text(src, n, si)
      == if FirstTaken(raw).None? then None else Joined(FirstTaken(raw).value, Text(src, n, next))
  {
    hide Text, ReadUnicode, Encode, UnitTaken, PairTaken;
    var raw := src[si..n];
    TextStep(src, n, si);
    if raw[0] == '\\' && raw[1] == 'u' {
      UnitInSpan(src, n, si);
      var u := UnitValue(raw);
      if StartsTwo(raw) {
        assert raw[6..] == src[si + 6..n];
        UnitInSpan(src, n, si + 6);
        TwoUnits(src, n, si, u, UnitValue(raw[6..]));
      } else if u < 0xD800 {
        PlainUnitExact(src, n, si, u);
        EncodeTaken(u);
      } else {
        NotTaken(u);
        if IsHigh(u) {
          NoSecond(src, n, si);
          LoneUnitRefused(src, n, si, u);
        } else {
          FirstTooLarge(src, n, si, u);
        }
      }
    } else {
      assert raw[0] == src[si] && (raw[0] == '\\' ==> raw[1] == src[si + 1]);
    }
  }

  lemma NotTaken(u: nat)
    requires 0xD800 <= u
    ensures UnitTaken(u) == None
  {
  }

  lemma TwoUnits(src: string, n: nat, si: nat, high: nat, low: nat)
    requires IsUnicodeEscape(src, n, si, high) && IsUnicodeEscape(src, n, si + 6, low) && IsHigh(high)
    requires low < 0x1_0000
    ensures Text(src, n, si)
         == if PairTaken(high, low).None? then None else Joined(PairTaken(high, low).value, Text(src, n, si + 12))
  {
    hide Text, ReadUnicode, Encode, Octets;
    PairExact(src, n, si, high, low);
    TextStep(src, n, si);
    if 0xDC00 <= low {
      hide PairTaken;
      EncodePair(high, low);
    }
  }

  /** A first unit from 0xDC00 on is refused whatever follows. */
  lemma FirstTooLarge(src: string, n: nat, si: nat, u: nat)
    requires IsUnicodeEscape(src, n, si, u) && 0xDC00 <= u
    ensures Text(src, n, si) == None
  {
    ReadFour(src, n, si, u);
  }

  /** In an escaped text, a backslash and a u are followed by four digits. */
  lemma NoSecond(src: string, n: nat, si: nat)
    requires si < n < |src| && EscapedText(src[si..n], true) && StartsUnit(src[si..n]) && !StartsUnit(src[si..n][6..])
    ensures n < si + 8 || src[si + 6] != '\\' || src[si + 7] != 'u'
  {
    var rest := src[si..n][6..];
    assert EscapedText(rest, true);
    if si + 8 <= n { assert rest[0] == src[si + 6] && rest[1] == src[si + 7]; }
  }

  lemma {:induction false} SpanTaken(src: string, n: nat, si: nat)
    requires si <= n < |src| && EscapedText(src[si..n], true)
    ensures Text(src, n, si) == Taken(src[si..n])
    decreases n - si
  {
    hide Text, EscapedText, FirstTaken, TakenSize;
    var raw := src[si..n];
    if raw == "" {
      TextEnds(src, n, si);
    } else {
      FirstUnit(src, n, si);
      TakenRest(raw);
      var next := si + TakenSize(raw);
      assert raw[TakenSize(raw)..] == src[next..n];
      SpanTaken(src, n, next);
    }
  }

  /** What every escaped text decodes to. */
  lemma TextIsTaken(raw: string)
    requires EscapedText(raw, true)
    ensures TextOf(raw) == Taken(raw)
  {
    hide Text, Taken, EscapedText;
    var src := raw + "\"";
    assert src[0..|raw|] == raw;
    SpanTaken(src, |raw|, 0);
  }

  /** A well-formed element is taken for what it means exactly when it is supported;
      otherwise it is refused or gives a wrong first byte. */
  lemma FirstAgrees(raw: string)
    requires raw != "" && EscapedText(raw, true) && FirstMeant(raw).Some?
    ensures TakenSize(raw) == FirstSize(raw) && FirstMeant(raw).value != ""
    ensures FirstSupported(raw) ==> FirstTaken(raw) == FirstMeant(raw)
    ensures !FirstSupported(raw) && FirstTaken(raw).Some? ==>
      FirstTaken(raw).value != "" && FirstTaken(raw).value[0] != FirstMeant(raw).value[0]
  {
    if raw[0] == '\\' && raw[1] == 'u' {
      var u := UnitValue(raw);
      if 0x400 <= u < 0x800 { assert 0x10 <= u / 0x40 < 0x20 && (u - 0x400) / 0x40 == u / 0x40 - 0x10; }
    }
  }

  /** An element that is not well formed is refused, unless it is loose. */
  lemma FirstRefused(raw: string)
    requires raw != "" && EscapedText(raw, true) && FirstMeant(raw).None? && !StartsLoose(raw)
    ensures FirstTaken(raw) == None
  {
  }

  lemma JoinedDiffers(a: string, t: Option<string>, b: string, u: Option<string>)
    requires a != "" && b != "" && a[0] != b[0] && t.Some?
    ensures Joined(b, u) != Joined(a, t)
  {
    assert (a + t.value)[0] == a[0];
    if u.Some? { assert (b + u.value)[0] == b[0]; }
  }

  lemma JoinedSame(a: string, t: Option<string>, u: Option<string>)
    ensures Joined(a, t) == Joined(a, u) <==> t == u
  {
    if t.Some? && u.Some? && a + t.value == a + u.value {
      assert (a + t.value)[|a|..] == t.value && (a + u.value)[|a|..] == u.value;
    }
  }

  lemma {:induction false} MeantIsTaken(raw: string)
    requires EscapedText(raw, true)
    ensures Meant(raw).Some? ==> (Taken(raw) == Meant(raw) <==> AllSupported(raw))
    ensures Meant(raw).None? && !AnyLoose(raw) ==> Taken(raw) == None
    decreases |raw|
  {
    hide EscapedText, FirstMeant, FirstTaken, FirstSupported, FirstSize, TakenSize, StartsLoose;
    if raw != "" {
      FirstRest(raw);
      TakenRest(raw);
      if FirstMeant(raw).Some? {
        FirstAgrees(raw);
        var rest := raw[FirstSize(raw)..];
        MeantIsTaken(rest);
        JoinedSame(FirstMeant(raw).value, Taken(rest), Meant(rest));
        if FirstTaken(raw).Some? && !FirstSupported(raw) && Meant(rest).Some? {
          JoinedDiffers(FirstMeant(raw).value, Meant(rest), FirstTaken(raw).value, Taken(rest));
        }
      } else if !StartsLoose(raw) {
        FirstRefused(raw);
      }
    }
  }

  /** A well-formed text gives its meaning exactly when every \u escape in it is
      supported; any other text is refused, unless some high surrogate in it is followed
      by a unit beyond the surrogates. */
  lemma SpanExact(raw: string)
    requires EscapedText(raw, true)
    ensures Meant(raw).Some? ==> (TextOf(raw) == Meant(raw) <==> AllSupported(raw))
    ensures Meant(raw).None? && !AnyLoose(raw) ==> TextOf(raw) == None
  {
    hide Meant, AllSupported, AnyLoose, EscapedText, Taken, TextOf;
    TextIsTaken(raw);
    MeantIsTaken(raw);
  }

  /** A second unit beyond the surrogates is taken for a low one: it gives the octets of
      the scalar value of another pair, or is refused where there is no such pair. */
  lemma LoosePair(src: string, n: nat, si: nat, high: nat, low: nat)
    requires IsUnicodeEscape(src, n, si, high) && IsUnicodeEscape(src, n, si + 6, low) && IsHigh(high) && 0xE000 <= low
    ensures var carry := (low - 0xDC00) / 0x400; var rest := 0xDC00 + (low - 0xDC00) % 0x400;
      if high + carry < 0xDC00 then
        Text(src, n, si) == Joined(Octets(PairValue(high + carry, rest)), Text(src, n, si + 12))
      else Text(src, n, si) == None
  {
    hide Text, Encode, Octets;
    TwoUnits(src, n, si, high, low);
  }
}
