/** What the token scanners accept: JSON numbers and escaped string bodies. */
module JsonTokens {
  import opened CText
  import opened JsonLexer

  /** The body of a JSON string (RFC 8259 section 7) as the scanners take it: a quote
      or backslash only inside an escape sequence, a raw newline only in a name. */
  predicate EscapedText(raw: string, newlines: bool) {
    if raw == "" then true
    else if raw[0] == '\\' then
      && |raw| >= 2
      && if raw[1] == 'u' then
           |raw| >= 6 && (forall k :: 2 <= k < 6 ==> IsHex(raw[k])) && EscapedText(raw[6..], newlines)
         else IsSimpleEscape(raw[1]) && EscapedText(raw[2..], newlines)
    else raw[0] != '"' && (newlines || raw[0] != '\n') && EscapedText(raw[1..], newlines)
  }

  /** Length of the first escape sequence or plain byte of an escaped text. */
  function UnitSize(raw: string): (n: nat)
    requires raw != "" && EscapedText(raw, true)
    ensures 1 <= n <= |raw|
  {
    if raw[0] != '\\' then 1 else if raw[1] == 'u' then 6 else 2
  }

  lemma UnitRest(raw: string)
    requires raw != "" && EscapedText(raw, true)
    ensures EscapedText(raw[UnitSize(raw)..], true)
  {
  }

  lemma EscapedTextWiden(raw: string)
    requires EscapedText(raw, false)
    ensures EscapedText(raw, true)
  {
  }

  lemma {:induction false} ScanHexAccepts(t: string, p: nat, k: nat)
    requires p + k <= |t| && forall j :: p <= j < p + k ==> IsHex(t[j])
    ensures ScanHex(t, p, k) == Ok(p + k)
    decreases k
  {
    if k > 0 { ScanHexAccepts(t, p + 1, k - 1); }
  }

  lemma {:induction false} ScanHexOnlyHex(t: string, p: nat, k: nat)
    requires p <= |t| && ScanHex(t, p, k).Ok?
    ensures forall j :: p <= j < ScanHex(t, p, k).end ==> IsHex(t[j])
    ensures ScanHex(t, p, k).end == if p + k <= |t| then p + k else |t|
    decreases k
  {
    if k > 0 && p < |t| { ScanHexOnlyHex(t, p + 1, k - 1); }
  }

  /** The first unit of an escaped text is skipped as a whole. */
  lemma ScanEscapeAccepts(t: string, i: nat, raw: string, newlines: bool)
    requires raw != "" && raw[0] == '\\' && EscapedText(raw, newlines) && Reads(t, i, raw)
    ensures EscapedText(raw, true) && ScanEscape(t, i + 1) == Ok(i + UnitSize(raw))
  {
    if !newlines { EscapedTextWiden(raw); }
    assert t[i + 1] == raw[1];
    if raw[1] == 'u' {
      forall j | i + 2 <= j < i + 6 ensures IsHex(t[j]) {
        assert t[i + (j - i)] == raw[j - i];
      }
      ScanHexAccepts(t, i + 2, 4);
    }
  }

  /** The value scanner stops exactly on the quote that closes an escaped text. */
  lemma {:induction false} ScanAccepts(t: string, j: nat, raw: string)
    requires EscapedText(raw, false) && Reads(t, j, raw)
    requires j + |raw| < |t| && t[j + |raw|] == '"'
    ensures ScanString(t, j) == Ok(j + |raw|)
    decreases |raw|
  {
    if raw != "" {
      EscapedTextWiden(raw);
      assert t[j + 0] == raw[0];
      if raw[0] == '\\' { ScanEscapeAccepts(t, j, raw, false); }
      ReadsDrop(t, j, raw, UnitSize(raw));
      ScanAccepts(t, j + UnitSize(raw), raw[UnitSize(raw)..]);
    }
  }

  /** Conversely, a span the value scanner accepts is an escaped text: it ends on
      an escape boundary. */
  lemma {:induction false} ScanOnlyAccepts(t: string, j: nat)
    requires j <= |t| && ScanString(t, j).Ok? && ScanString(t, j).end < |t|
    ensures EscapedText(t[j..ScanString(t, j).end], false)
    decreases |t| - j
  {
    var e := ScanString(t, j).end;
    if j < e {
      var raw := t[j..e];
      if t[j] == '\\' {
        var p := ScanEscape(t, j + 1).end;
        ScanOnlyAccepts(t, p);
        if t[j + 1] == 'u' { ScanHexOnlyHex(t, j + 2, 4); }
        assert raw[p - j..] == t[p..e];
      } else {
        ScanOnlyAccepts(t, j + 1);
        assert raw[1..] == t[j + 1..e];
      }
    }
  }

  lemma {:induction false} ScanWordAccepts(t: string, i: nat, w: string)
    requires Reads(t, i, w)
    ensures ScanWord(t, i, w) == Ok(i + |w|)
    decreases |w|
  {
    if w != "" {
      assert t[i + 0] == w[0];
      ReadsDrop(t, i, w, 1);
      ScanWordAccepts(t, i + 1, w[1..]);
    }
  }

  predicate Digits(s: string) {
    s != "" && forall k :: 0 <= k < |s| ==> IsDigit(s[k])
  }

  datatype Exponent = NoExponent | Exponent(e: char, sign: string, digits: string)

  /** A number (RFC 8259 section 6); leading zeros are also taken, and in an array a plus. */
  datatype Numeral = Numeral(sign: string, digits: string, fraction: string, exponent: Exponent)

  predicate OptionalSign(s: string) {
    |s| == 0 || (|s| == 1 && IsSign(s[0]))
  }

  predicate ValidExponent(e: Exponent)
    requires e.Exponent?
  {
    (e.e == 'e' || e.e == 'E') && OptionalSign(e.sign) && Digits(e.digits)
  }

  predicate ValidNumeral(n: Numeral) {
    && OptionalSign(n.sign) && Digits(n.digits)
    && (n.fraction == "" || Digits(n.fraction))
    && (n.exponent.Exponent? ==> ValidExponent(n.exponent))
  }

  function PrintFraction(f: string): string {
    if f == "" then "" else "." + f
  }

  function PrintExponent(e: Exponent): string {
    if e.NoExponent? then "" else [e.e] + (e.sign + e.digits)
  }

  function PrintNumeral(n: Numeral): string {
    n.sign + (n.digits + (PrintFraction(n.fraction) + PrintExponent(n.exponent)))
  }

  predicate IsDouble(n: Numeral) {
    n.fraction != "" || n.exponent.Exponent?
  }
}
