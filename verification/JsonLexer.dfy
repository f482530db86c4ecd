/** Scanning of the tokens inside a JSON value: strings, keywords and numbers. */
module JsonLexer {
  import opened CText

  const SCRATCH_SIZE := 32

  /** What may follow a backslash, apart from the hex form. */
  predicate IsSimpleEscape(c: char) {
    c == '"' || c == '\\' || c == '/' || c == 'b' || c == 'f' || c == 'n' || c == 'r' || c == 't'
  }

  predicate IsSign(c: char) {
    c == '+' || c == '-'
  }

  /** What the number loop copies. */
  predicate IsNumberChar(c: char) {
    c == '.' || c == 'E' || c == 'e' || IsSign(c) || IsDigit(c)
  }

  /** Where a token scan stops: just past or on its last byte, at an error whose
      1-based position is reported, or beyond the terminator. */
  datatype Scan = Ok(end: nat) | Bad(pos: nat) | Overrun

  /** The scan of up to k hexadecimal digits. */
  function ScanHex(t: string, p: nat, k: nat): (r: Scan)
    requires p <= |t|
    ensures r.Ok? ==> p <= r.end <= |t| && r.end <= p + k
    ensures !r.Overrun?
    decreases k
  {
    if k == 0 || p == |t| then Ok(p)
    else if !IsHex(t[p]) then Bad(p + 1)
    else ScanHex(t, p + 1, k - 1)
  }

  /** One escape sequence whose backslash is at j - 1. */
  function ScanEscape(t: string, j: nat): (r: Scan)
    requires j <= |t|
    ensures r.Ok? ==> j < r.end <= |t|
  {
    if j == |t| then Overrun
    else if t[j] != 'u' && !IsSimpleEscape(t[j]) then Bad(j + 1)
    else if t[j] == 'u' then ScanHex(t, j + 1, 4)
    else Ok(j + 1)
  }

  /** The body of a string value: stops on the closing quote, or on the terminator. */
  function ScanString(t: string, j: nat): (r: Scan)
    requires j <= |t|
    ensures r.Ok? ==> j <= r.end <= |t| && (r.end < |t| ==> t[r.end] == '"')
    decreases |t| - j
  {
    if j == |t| || t[j] == '"' then Ok(j)
    else if t[j] == '\n' then Bad(j + 1)
    else if t[j] == '\\' then
      match ScanEscape(t, j + 1)
      case Ok(p) => ScanString(t, p)
      case other => other
    else ScanString(t, j + 1)
  }

  /** A keyword, byte by byte. */
  function ScanWord(t: string, i: nat, w: string): (r: Scan)
    requires i <= |t|
    ensures r.Ok? ==> r.end == i + |w| <= |t|
    ensures !r.Overrun?
    decreases |w|
  {
    if w == "" then Ok(i)
    else if i < |t| && t[i] == w[0] then ScanWord(t, i + 1, w[1..])
    else Bad(i + 1)
  }

  /** The local variables of the number loop; the scratch buffer holds t[start..i]. */
  datatype NumberState = NumberState(i: nat, isDouble: bool, dot: bool, exponent: bool, expSign: bool)

  datatype NumberStep = More(s: NumberState) | NumberDone | NumberBad(pos: nat) | NumberOverrun

  /** A digit, or the terminator, which strchr also finds. */
  predicate DigitOrEnd(t: string, i: nat)
    requires i <= |t|
  {
    i == |t| || IsDigit(t[i])
  }

  /** The tail of one loop pass, after a digit: a dot or an exponent may follow. */
  function AfterDigit(t: string, start: nat, s: NumberState): (r: NumberStep)
    requires start <= s.i <= |t|
    ensures r.More? ==> s.i <= r.s.i <= |t|
    ensures !r.NumberDone?
  {
    if s.i == |t| then More(s.(isDouble := true))
    else if t[s.i] == '.' then
      if s.dot || s.exponent then NumberBad(s.i + 1)
      else if s.i - start >= SCRATCH_SIZE then NumberOverrun
      else if !DigitOrEnd(t, s.i + 1) then NumberBad(s.i + 2)
      else More(s.(i := s.i + 1, isDouble := true, dot := true))
    else if t[s.i] == 'e' || t[s.i] == 'E' then
      if s.exponent then NumberBad(s.i + 1)
      else if s.i - start >= SCRATCH_SIZE then NumberOverrun
      else if s.i + 1 < |t| && IsSign(t[s.i + 1]) then
        if s.expSign then NumberBad(s.i + 2)
        else More(s.(i := s.i + 1, isDouble := true, exponent := true, expSign := true))
      else if !DigitOrEnd(t, s.i + 1) then NumberBad(s.i + 2)
      else More(s.(i := s.i + 1, isDouble := true, exponent := true))
    else if IsSign(t[s.i]) then NumberBad(s.i + 1)
    else More(s)
  }

  /** One pass of the number loop. */
  function NumberPass(t: string, start: nat, s: NumberState): (r: NumberStep)
    requires start <= s.i <= |t|
    ensures r.More? ==> s.i < r.s.i <= |t|
  {
    if s.i == |t| || !IsNumberChar(t[s.i]) then
      if s.i - start >= SCRATCH_SIZE then NumberOverrun else NumberDone
    else if s.i - start >= SCRATCH_SIZE then NumberBad(s.i + 1)
    else if IsSign(t[s.i]) then
      if s.i + 1 == |t| then NumberOverrun
      else if !IsDigit(t[s.i + 1]) then NumberBad(s.i + 2)
      else if s.i + 1 - start >= SCRATCH_SIZE then NumberOverrun
      else AfterDigit(t, start, s.(i := s.i + 2))
    else AfterDigit(t, start, s.(i := s.i + 1))
  }

  datatype NumberScan = Number(end: nat, isDouble: bool) | BadNumber(pos: nat) | NoNumber

  function ScanNumber(t: string, start: nat, s: NumberState): (r: NumberScan)
    requires start <= s.i <= |t|
    ensures r.Number? ==> s.i <= r.end <= |t|
    ensures r.Number? && s.i < |t| && IsNumberChar(t[s.i]) ==> s.i < r.end
    decreases |t| - s.i
  {
    match NumberPass(t, start, s)
    case More(s') => ScanNumber(t, start, s')
    case NumberDone => Number(s.i, s.isDouble)
    case NumberBad(pos) => BadNumber(pos)
    case NumberOverrun => NoNumber
  }

  /** atoll: an optional sign, then digits up to the first other byte. */
  function DecimalValue(s: string, acc: nat): nat
  {
    if s == "" || !IsDigit(s[0]) then acc
    else DecimalValue(s[1..], 10 * acc + (s[0] as int - '0' as int))
  }

  function Atoll(s: string): int
  {
    if s != "" && s[0] == '-' then 0 - DecimalValue(s[1..], 0)
    else if s != "" && s[0] == '+' then DecimalValue(s[1..], 0)
    else DecimalValue(s, 0)
  }

  /** Conversion of a long long to a 32-bit int, keeping the low 32 bits. */
  function ToInt32(v: int): (r: int)
    ensures -0x8000_0000 <= r < 0x8000_0000
    ensures (r - v) % 0x1_0000_0000 == 0
    ensures -0x8000_0000 <= v < 0x8000_0000 ==> r == v
  {
    (v + 0x8000_0000) % 0x1_0000_0000 - 0x8000_0000
  }

  predicate FitsLongLong(v: int) {
    -0x8000_0000_0000_0000 <= v < 0x8000_0000_0000_0000
  }
}
