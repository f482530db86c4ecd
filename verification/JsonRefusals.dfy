/** Which bytes the parser refuses, and where it reports them. */
module JsonRefusals {
  import opened CText
  import opened JsonLexer
  import opened JsonTokens
  import opened JsonNumbers
  import opened JsonMachine
  import opened JsonDocument
  import opened JsonGaps
  import opened JsonParsing
  import opened JsonSoundness

  /** The bytes that may follow where gaps are passed over. */
  predicate Welcome(p: Phase, stack: seq<Frame>, c: char) {
    || IsFiller(p, c) || c == '/'
    || match p
       case ParseBegin => c == '{' || c == '['
       case InObject => c == '"' || c == '}'
       case FindColon => c == ':'
       case FindValue => c == '{' || c == '[' || (BeginsScalar(c) && c != '+')
       case InArray => c == '{' || c == '[' || c == ']' || BeginsScalar(c)
       case FindComma => stack != [] && (c == ',' || c == if Last(stack).Named? then '}' else ']')
       case _ => false
  }

  predicate BeginsScalar(c: char) {
    c == '"' || c == '+' || c == '-' || c == 't' || c == 'f' || c == 'n' || '0' <= c <= '9'
  }

  /** Behind the root the code reads a slot that is not there. */
  predicate ReadsNoSlot(p: Phase, stack: seq<Frame>, c: char) {
    p == FindComma && stack == [] && (c == ',' || c == ']' || c == '}')
  }

  /** Any other byte ends the run there; so does a slash that opens no comment, one byte
      further on. */
  lemma ByteRefused(t: string, depth: nat, s: State)
    requires Live(t, depth, s) && TakesGaps(s.phase)
    ensures !Welcome(s.phase, s.stack, t[s.i]) ==>
      Run(t, depth, s) == Result([], if ReadsNoSlot(s.phase, s.stack, t[s.i]) then Undefined else ErrorAt(s.i + 1))
    ensures t[s.i] == '/' && !(s.i + 1 < |t| && t[s.i + 1] == '/') ==>
      Run(t, depth, s) == Result([], ErrorAt(s.i + 2))
    ensures t[s.i] == '/' && s.i + 1 < |t| && t[s.i + 1] == '/' && |s.stack| == depth ==>
      Run(t, depth, s) == Result([], NoMemory)
    ensures (s.phase == FindValue || s.phase == InArray) && (t[s.i] == '{' || t[s.i] == '[') && |s.stack| == depth ==>
      Run(t, depth, s) == Result([], NoMemory)
  {
    hide Inv, Shape, AllOpen, IsOpen, StepValue, StepName, StepComment;
    if s.phase == FindComma && s.stack != [] { OpenTop(t, depth, s); }
  }

  lemma OpenTop(t: string, depth: nat, s: State)
    requires Live(t, depth, s) && s.phase == FindComma && s.stack != []
    ensures Last(s.stack).Named? || Last(s.stack).Arr?
  {
    assert IsOpen(t, Last(s.stack));
  }

  /** A whole document may be followed by nothing but gaps: any other byte is reported, or
      taken for one that closes a bracket when the root has left no slot. */
  lemma BehindDocument(t: string, depth: nat, d: Document)
    requires 1 <= depth && ValidDocument(d) && d.end == "" && DocumentSlots(d) <= depth
    requires Reads(t, 0, PrintDocument(d)) && |PrintDocument(d)| < |t|
    ensures Inv(t, depth, START)
    ensures var n := |PrintDocument(d)|; var c := t[n];
      && (c == '/' && !(n + 1 < |t| && t[n + 1] == '/') ==>
            Run(t, depth, START) == Result(Leaves(d.root, []), ErrorAt(n + 2)))
      && (c != '/' && c != ' ' && c != '\t' && c != '\r' && c != '\n' ==>
            Run(t, depth, START) == Result(Leaves(d.root, []),
              if !KeepsRoot(d.root) && (c == ',' || c == ']' || c == '}') then Undefined else ErrorAt(n + 1)))
  {
    hide Run, Completes, StepAny, Inv, Print, PrintGap, Slots, Leaves, KeepsRoot, Reads, AfterRoot, DocumentSlots,
      ValidJson, ValidGap;
    DocumentText(t, d);
    DocumentPart(t, depth, d);
    assert d.(end := "") == d;
    var e := Skip(AfterRoot(d), |PrintGap(d.trail)|);
    LeadsInv(t, depth, START, Leaves(d.root, []), e);
    assert Leaves(d.root, []) + [] == Leaves(d.root, []);
    RootPhase(d);
    ByteRefused(t, depth, e);
  }

  lemma RootPhase(d: Document)
    requires !d.root.Lit?
    ensures AfterRoot(d).phase == if KeepsRoot(d.root) then ParseFinished else FindComma
  {
    hide Print, PrintGap, KeepsRoot;
  }

  /** A text may end anywhere between tokens and in a name, but not inside an escape or a
      string value: those are read on behind the terminator. */
  lemma TextMayEnd(t: string, depth: nat, s: State)
    requires Inv(t, depth, s) && s.i >= |t|
    ensures Run(t, depth, s) == Result([], if s.i == |t| then Success else Undefined)
  {
  }

  /** The beginning of the body of a string; of a name, with newlines. */
  ghost predicate BeginsText(w: string, newlines: bool) {
    exists x :: EscapedText(w + x, newlines)
  }

  lemma EscapeBegins(w: string, newlines: bool)
    requires w == "\\"
      || (2 <= |w| < 6 && w[0] == '\\' && w[1] == 'u' && forall k :: 2 <= k < |w| ==> IsHex(w[k]))
    ensures BeginsText(w, newlines)
  {
    if w == "\\" {
      assert EscapedText(w + "n", newlines) by { assert (w + "n")[2..] == ""; }
    } else {
      var x := "0000"[..6 - |w|];
      assert (w + x)[6..] == "" && forall k :: 2 <= k < 6 ==> IsHex((w + x)[k]);
      assert EscapedText(w + x, newlines);
    }
  }

  lemma NoEscape(w: string, newlines: bool)
    requires |w| >= 2 && w[0] == '\\'
    requires if w[1] == 'u' then exists k :: 2 <= k < |w| && k < 6 && !IsHex(w[k]) else !IsSimpleEscape(w[1])
    ensures !BeginsText(w, newlines)
  {
    forall x ensures !EscapedText(w + x, newlines) {
      assert forall k :: 0 <= k < |w| ==> (w + x)[k] == w[k];
    }
  }

  lemma {:induction false} HexRefused(t: string, p: nat, k: nat)
    requires p <= |t| && ScanHex(t, p, k).Bad?
    ensures var pos := ScanHex(t, p, k).pos;
      p < pos <= |t| && pos - p <= k && !IsHex(t[pos - 1]) && forall j :: p <= j < pos - 1 ==> IsHex(t[j])
    decreases k
  {
    if IsHex(t[p]) { HexRefused(t, p + 1, k - 1); }
  }

  /** A bad escape is reported at the first byte with which it is no escape. */
  lemma EscapeRefused(t: string, i: nat, newlines: bool)
    requires i < |t| && t[i] == '\\' && ScanEscape(t, i + 1).Bad?
    ensures var pos := ScanEscape(t, i + 1).pos;
      i < pos - 1 < |t| && BeginsText(t[i..pos - 1], newlines) && !BeginsText(t[i..pos], newlines)
  {
    var pos := ScanEscape(t, i + 1).pos;
    if t[i + 1] == 'u' {
      HexRefused(t, i + 2, 4);
      assert t[i..pos][pos - 1 - i] == t[pos - 1];
    } else {
      assert t[i..i + 1] == "\\";
    }
    EscapeBegins(t[i..pos - 1], newlines);
    NoEscape(t[i..pos], newlines);
  }

  /** Whole units in front make no difference. */
  lemma UnitBegins(unit: string, rest: string, newlines: bool)
    requires unit != "" && EscapedText(unit, true) && UnitSize(unit) == |unit| && (newlines || unit != "\n")
    ensures BeginsText(unit + rest, newlines) <==> BeginsText(rest, newlines)
  {
    hide EscapedText, UnitSize;
    if x :| EscapedText(unit + rest + x, newlines) {
      assert (unit + rest + x)[|unit|..] == rest + x;
      UnitOf(unit, rest + x, newlines);
      assert unit + rest + x == unit + (rest + x);
    }
    if x :| EscapedText(rest + x, newlines) {
      UnitOf(unit, rest + x, newlines);
      assert unit + rest + x == unit + (rest + x);
    }
  }

  lemma UnitOf(unit: string, y: string, newlines: bool)
    requires unit != "" && EscapedText(unit, true) && UnitSize(unit) == |unit| && (newlines || unit != "\n")
    ensures EscapedText(unit + y, newlines) <==> EscapedText(y, newlines)
  {
    var w := unit + y;
    assert w[|unit|..] == y && forall k :: 0 <= k < |unit| ==> w[k] == unit[k];
    if |unit| == 1 { assert unit == [unit[0]]; }
  }

  /** A bad string is reported at the first byte with which it is no string. */
  lemma {:induction false} StringRefused(t: string, j: nat)
    requires j <= |t| && ScanString(t, j).Bad?
    ensures var pos := ScanString(t, j).pos;
      j < pos <= |t| && BeginsText(t[j..pos - 1], false) && !BeginsText(t[j..pos], false)
    decreases |t| - j
  {
    hide BeginsText, EscapedText, ScanEscape;
    var pos := ScanString(t, j).pos;
    if t[j] == '\n' {
      assert t[j..j] == "" && t[j..j + 1] == "\n";
      NoNewline();
    } else if t[j] == '\\' && ScanEscape(t, j + 1).Bad? {
      EscapeRefused(t, j, false);
    } else {
      var p := if t[j] == '\\' then ScanEscape(t, j + 1).end else j + 1;
      StringRefused(t, p);
      UnitRead(t, j);
      UnitBegins(t[j..p], t[p..pos - 1], false);
      UnitBegins(t[j..p], t[p..pos], false);
      assert t[j..p] + t[p..pos - 1] == t[j..pos - 1] && t[j..p] + t[p..pos] == t[j..pos];
    }
  }

  lemma NoNewline()
    ensures BeginsText("", false) && !BeginsText("\n", false)
  {
    assert EscapedText("" + "", false);
    forall x ensures !EscapedText("\n" + x, false) { assert ("\n" + x)[0] == '\n'; }
  }

  /** What the string scanner passes over before the end of the text is one unit. */
  lemma UnitRead(t: string, j: nat)
    requires j < |t| && t[j] != '"' && t[j] != '\n'
    requires t[j] == '\\' ==> ScanEscape(t, j + 1).Ok? && ScanEscape(t, j + 1).end < |t|
    ensures var p := if t[j] == '\\' then ScanEscape(t, j + 1).end else j + 1;
      t[j..p] != "" && EscapedText(t[j..p], true) && UnitSize(t[j..p]) == p - j && t[j..p] != "\n"
  {
    hide ScanEscape;
    var p := if t[j] == '\\' then ScanEscape(t, j + 1).end else j + 1;
    NoText();
    if t[j] == '\\' { EscapeBack(t, j, ""); } else { PlainBack(t[j], ""); }
    assert t[j..p] + "" == t[j..p] && t[j..p][0] == t[j];
    if t[j] == '\\' { EscapeSize(t, j); } else { assert [t[j]] + "" == t[j..p]; }
  }

  lemma EscapeSize(t: string, j: nat)
    requires j < |t| && t[j] == '\\' && ScanEscape(t, j + 1).Ok? && ScanEscape(t, j + 1).end < |t|
    ensures j + 1 < |t| && ScanEscape(t, j + 1).end == j + if t[j + 1] == 'u' then 6 else 2
  {
    if t[j + 1] == 'u' { ScanHexOnlyHex(t, j + 2, 4); }
  }

  /** A name goes wrong at a bad escape only. */
  lemma NameRefused(t: string, depth: nat, s: State)
    requires Live(t, depth, s) && s.phase == InObjectName && t[s.i] == '\\' && ScanEscape(t, s.i + 1).Bad?
    ensures var pos := ScanEscape(t, s.i + 1).pos;
      && Run(t, depth, s) == Result([], ErrorAt(pos)) && s.i < pos <= |t|
      && BeginsText(t[s.i..pos - 1], true) && !BeginsText(t[s.i..pos], true)
  {
    hide BeginsText, ScanEscape;
    EscapeRefused(t, s.i, true);
  }

  /** A literal, but for the length and the size of numbers. */
  predicate IsLiteral(l: Literal) {
    match l
    case LString(raw) => EscapedText(raw, false)
    case LNumber(n) => ValidNumeral(n)
    case _ => true
  }

  ghost predicate BeginsLiteral(w: string) {
    exists l, x :: IsLiteral(l) && PrintLiteral(l) == w + x
  }

  lemma {:induction false} WordRefused(t: string, i: nat, w: string)
    requires i <= |t| && ScanWord(t, i, w).Bad?
    ensures var k := ScanWord(t, i, w).pos - 1 - i;
      0 <= k < |w| && i + k <= |t| && t[i..i + k] == w[..k] && (i + k < |t| ==> t[i + k] != w[k])
    decreases |w|
  {
    if i < |t| && t[i] == w[0] {
      WordRefused(t, i + 1, w[1..]);
      var k := ScanWord(t, i, w).pos - 1 - i;
      assert t[i..i + k] == [t[i]] + t[i + 1..i + k] && w[..k] == [w[0]] + w[1..][..k - 1];
    }
  }

  /** The first byte says which literal it is. */
  lemma FirstOfLiteral(l: Literal, c: char, x: string)
    requires IsLiteral(l) && PrintLiteral(l) == [c] + x
    ensures (c == '"' <==> l.LString?) && (c == 't' <==> l.LTrue?)
    ensures (c == 'f' <==> l.LFalse?) && (c == 'n' <==> l.LNull?)
    ensures IsSign(c) || IsDigit(c) <==> l.LNumber?
  {
    assert PrintLiteral(l)[0] == c;
    match l
    case LNumber(n) => NumeralBegins(n);
    case LString(_) => assert PrintLiteral(l)[0] == '"';
    case LTrue => assert "true"[0] == 't';
    case LFalse => assert "false"[0] == 'f';
    case LNull => assert "null"[0] == 'n';
  }

  lemma NumeralBegins(n: Numeral)
    requires ValidNumeral(n)
    ensures PrintNumeral(n) != "" && (IsSign(PrintNumeral(n)[0]) || IsDigit(PrintNumeral(n)[0]))
  {
    if n.sign == "" {
      assert PrintNumeral(n)[0] == n.digits[0];
    } else {
      assert PrintNumeral(n)[0] == n.sign[0];
    }
  }

  predicate IsKeyword(l: Literal) {
    l.LTrue? || l.LFalse? || l.LNull?
  }

  /** Nothing else begins like a keyword. */
  lemma OneKeyword(l: Literal, m: Literal)
    requires IsKeyword(l) && IsLiteral(m) && PrintLiteral(m) != "" && PrintLiteral(m)[0] == PrintLiteral(l)[0]
    ensures m == l
  {
    var w := PrintLiteral(m);
    assert w == [w[0]] + w[1..];
    FirstOfLiteral(m, w[0], w[1..]);
    assert "true"[0] == 't' && "false"[0] == 'f' && "null"[0] == 'n';
  }

  lemma KeywordRefused(t: string, i: nat, l: Literal)
    requires IsKeyword(l) && i < |t| && t[i] == PrintLiteral(l)[0] && ScanWord(t, i, PrintLiteral(l)).Bad?
    ensures var pos := ScanWord(t, i, PrintLiteral(l)).pos;
      i <= pos - 1 <= |t| && BeginsLiteral(t[i..pos - 1]) && (pos <= |t| ==> !BeginsLiteral(t[i..pos]))
  {
    hide ScanWord, PrintLiteral, IsLiteral;
    var w := PrintLiteral(l);
    var pos := ScanWord(t, i, w).pos;
    var k := pos - 1 - i;
    WordRefused(t, i, w);
    assert w[..k] + w[k..] == w;
    KeywordIsLiteral(l);
    if pos <= |t| {
      forall m, x | IsLiteral(m) && PrintLiteral(m) == t[i..pos] + x ensures false {
        assert (t[i..pos] + x)[0] == t[i] && (t[i..pos] + x)[k] == t[i + k];
        OneKeyword(l, m);
      }
    }
  }

  lemma KeywordIsLiteral(l: Literal)
    requires IsKeyword(l)
    ensures IsLiteral(l)
  {
  }

  /** A string that goes wrong at a byte. */
  lemma QuotedRefused(t: string, i: nat)
    requires i < |t| && t[i] == '"' && ScanString(t, i + 1).Bad?
    ensures var pos := ScanString(t, i + 1).pos;
      i < pos - 1 && pos <= |t| && BeginsLiteral(t[i..pos - 1]) && !BeginsLiteral(t[i..pos])
  {
    hide ScanString, EscapedText, BeginsText, BeginsLiteral;
    var pos := ScanString(t, i + 1).pos;
    StringRefused(t, i + 1);
    var w := t[i + 1..pos - 1];
    assert t[i..pos - 1] == ['"'] + w && t[i..pos] == ['"'] + (w + [t[pos - 1]]) && t[i + 1..pos] == w + [t[pos - 1]];
    QuoteBegins(w);
    if t[pos - 1] == '"' && EscapedText(w, false) {
      ReadsItself(t, i + 1, pos - 1);
      ScanAccepts(t, i + 1, w);
    }
    NoQuote(w, t[pos - 1]);
  }

  lemma QuoteBegins(w: string)
    requires BeginsText(w, false)
    ensures BeginsLiteral(['"'] + w)
  {
    hide EscapedText;
    var x :| EscapedText(w + x, false);
    var l := LString(w + x);
    assert IsLiteral(l) && PrintLiteral(l) == ['"'] + w + (x + "\"");
  }

  lemma NoQuote(w: string, c: char)
    requires !BeginsText(w + [c], false) && !(c == '"' && EscapedText(w, false))
    ensures !BeginsLiteral(['"'] + (w + [c]))
  {
    hide EscapedText, BeginsText, IsLiteral, PrintLiteral;
    var v := w + [c];
    forall l, y | IsLiteral(l) && PrintLiteral(l) == ['"'] + v + y ensures false {
      assert ['"'] + v + y == ['"'] + (v + y);
      FirstOfLiteral(l, '"', v + y);
      Quoting(l);
      InsideQuotes(l.raw, v, y);
      if y != "" { TextBegins(v, y[..|y| - 1]); }
    }
  }

  lemma Quoting(l: Literal)
    requires IsLiteral(l) && l.LString?
    ensures PrintLiteral(l) == Quoted(l.raw) && EscapedText(l.raw, false)
  {
  }

  lemma TextBegins(w: string, x: string)
    requires EscapedText(w + x, false)
    ensures BeginsText(w, false)
  {
  }

  lemma InsideQuotes(raw: string, w: string, y: string)
    requires Quoted(raw) == ['"'] + (w + y)
    ensures y == "" ==> w != "" && raw == w[..|w| - 1] && Last(w) == '"'
    ensures y != "" ==> raw == w + y[..|y| - 1]
  {
    assert raw + "\"" == Quoted(raw)[1..] == w + y;
    assert (raw + "\"")[..|raw|] == raw && (raw + "\"")[|raw|] == '"';
    if y == "" { assert w + y == w; } else { assert (w + y)[..|raw|] == w + y[..|y| - 1]; }
  }

  /** A number of fewer than 32 bytes that goes wrong at a byte. */
  lemma NumberRefused(t: string, i: nat, pos: nat)
    requires i < |t| && (IsSign(t[i]) || IsDigit(t[i]))
    requires ScanNumber(t, i, NumberState(i, false, false, false, false)) == BadNumber(pos)
    ensures i < pos - 1 <= |t| && BeginsLiteral(t[i..pos - 1])
    ensures pos - 1 - i < 32 ==> pos <= |t| && !BeginsLiteral(t[i..pos])
    ensures pos - 1 - i >= 32 ==> pos == i + 33
  {
    hide ScanNumber, Reach, StopAt, PlaceAt, BeginsLiteral, BeginsNumber;
    NumberExact(t, i);
    NoWord();
    assert t[i..i] == "";
    StopReaches(t, i, i, Before);
    FirstStop(t, i);
    var j := StopAt(t, i, Before);
    var n := if j - i < 32 then j - i else 32;
    assert t[i..j] == t[i..i + n] + t[i + n..j];
    ReachPrefix(t[i..i + n], t[i + n..j]);
    BeginsExact(t[i..i + n]);
    NumberLiteral(t[i..i + n], t[i]);
    if j - i < 32 {
      ReachOne(t[i..j], t[j]);
      assert t[i..j] + [t[j]] == t[i..j + 1];
      BeginsExact(t[i..j + 1]);
      NumberLiteral(t[i..j + 1], t[i]);
    }
  }

  lemma FirstStop(t: string, i: nat)
    requires i < |t| && (IsSign(t[i]) || IsDigit(t[i]))
    ensures StopAt(t, i, Before) > i
  {
  }

  /** Of the literals only numbers begin with a sign or a digit. */
  lemma NumberLiteral(w: string, c: char)
    requires w != "" && w[0] == c && (IsSign(c) || IsDigit(c))
    ensures BeginsLiteral(w) <==> BeginsNumber(w)
  {
    hide PrintNumeral, ValidNumeral;
    if l, x :| IsLiteral(l) && PrintLiteral(l) == w + x {
      assert w + x == [c] + (w[1..] + x);
      FirstOfLiteral(l, c, w[1..] + x);
      assert ValidNumeral(l.n) && PrintNumeral(l.n) == w + x;
    }
    if n, x :| ValidNumeral(n) && PrintNumeral(n) == w + x {
      assert IsLiteral(LNumber(n)) && PrintLiteral(LNumber(n)) == w + x;
    }
  }

  /** A bad literal ends the run at the first byte with which it is none; a number of 32
      bytes and more at its 33rd. */
  lemma ValueRefused(t: string, depth: nat, s: State, pos: nat)
    requires Live(t, depth, s) && s.phase == InValue && ValueToken(t, s.i) == NoToken(ErrorAt(pos))
    ensures Run(t, depth, s) == Result([], ErrorAt(pos))
    ensures s.i < pos <= |t| + 1 && BeginsLiteral(t[s.i..pos - 1])
    ensures pos <= |t| ==> !BeginsLiteral(t[s.i..pos]) || (pos == s.i + 33 && (IsSign(t[s.i]) || IsDigit(t[s.i])))
  {
    hide ScanString, ScanWord, ScanNumber, BeginsLiteral;
    assert StepAny(t, depth, s) == Halt(ErrorAt(pos));
    if t[s.i] == '"' {
      QuotedRefused(t, s.i);
    } else if t[s.i] == 't' {
      KeywordRefused(t, s.i, LTrue);
    } else if t[s.i] == 'f' {
      KeywordRefused(t, s.i, LFalse);
    } else if t[s.i] == 'n' {
      KeywordRefused(t, s.i, LNull);
    } else {
      NumberRefused(t, s.i, pos);
    }
  }
}
