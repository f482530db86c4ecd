/** The texts that the parser takes to the end of their root are documents. */
module JsonSoundness {
  import opened CText
  import opened JsonLexer
  import opened JsonTokens
  import opened JsonNumbers
  import opened JsonMachine
  import opened JsonDocument
  import opened JsonGaps
  import opened JsonValues
  import opened JsonParsing

  /** It succeeds. */
  lemma {:induction false} CompletesSucceeds(t: string, depth: nat, s: State)
    requires Completes(t, depth, s)
    ensures Inv(t, depth, s) && Run(t, depth, s).outcome == Success
    decreases Measure(t, s).0, Measure(t, s).1
  {
    hide StepAny, Inv;
    if s.i < |t| {
      match StepAny(t, depth, s)
      case Next(s') => CompletesSucceeds(t, depth, s');
      case Emit(_, s') => CompletesSucceeds(t, depth, s');
    }
  }

  /** Before the end of the root there is a next byte and a step over it. */
  lemma Onward(t: string, depth: nat, s: State) returns (s': State)
    requires Completes(t, depth, s) && (s.i < |t| || !Past(s))
    ensures Live(t, depth, s) && Completes(t, depth, s')
    ensures StepAny(t, depth, s) == Next(s') || exists e :: StepAny(t, depth, s) == Emit(e, s')
  {
    hide StepAny, Inv, Past;
    match StepAny(t, depth, s)
    case Next(r) => s' := r;
    case Emit(e, r) => s' := r;
  }

  lemma CompletesInv(t: string, depth: nat, s: State)
    requires Completes(t, depth, s)
    ensures Inv(t, depth, s) && s.i <= |t| && (s.i == |t| ==> Past(s))
  {
    hide StepAny, Inv, Past;
  }

  /** A comment read back. */
  lemma {:induction false} CommentBack(t: string, depth: nat, s: State) returns (n: nat)
    requires Completes(t, depth, s) && s.phase == InComment
    ensures s.i + n <= |t| && NoEol(t[s.i..s.i + n]) && s.stack != [] && Last(s.stack).Cmt?
    ensures if s.i + n < |t| then
              IsEol(t[s.i + n]) && Completes(t, depth, State(Last(s.stack).back, Pop(s.stack), s.i + n + 1))
            else Past(s)
    decreases |t| - s.i
  {
    hide Completes, StepAny, Shape, IsEol, Past;
    CompletesInv(t, depth, s);
    n := 0;
    if s.i < |t| {
      var s' := Onward(t, depth, s);
      CommentStep(t, depth, s);
      if !IsEol(t[s.i]) {
        var k := CommentBack(t, depth, s');
        n := k + 1;
        assert t[s.i..s.i + n] == [t[s.i]] + t[s'.i..s'.i + k];
        SamePast(s, s');
      }
    }
  }

  lemma SamePast(s: State, s': State)
    requires s.phase == s'.phase && s.stack == s'.stack
    ensures Past(s) <==> Past(s')
  {
  }

  lemma CommentStep(t: string, depth: nat, s: State)
    requires Live(t, depth, s) && s.phase == InComment
    ensures StepAny(t, depth, s)
         == Next(if IsEol(t[s.i]) then State(Last(s.stack).back, Pop(s.stack), s.i + 1) else Skip(s, 1))
  {
    hide Shape;
  }

  lemma FillerStep(t: string, depth: nat, s: State)
    requires Live(t, depth, s) && TakesGaps(s.phase) && IsFiller(s.phase, t[s.i])
    ensures StepAny(t, depth, s) == Next(Skip(s, 1))
  {
    hide Inv;
  }

  /** A gap was read from s, and behind it a last comment or nothing. */
  ghost predicate GapRead(t: string, depth: nat, s: State, g: Gap, end: string) {
    var i := s.i + |PrintGap(g)|;
    && ValidGap(g, s.phase) && Reads(t, s.i, PrintGap(g)) && Completes(t, depth, Skip(s, |PrintGap(g)|))
    && if end == "" then (i == |t| && Past(s)) || (i < |t| && !IsFiller(s.phase, t[i]) && t[i] != '/')
       else BehindRoot(s.phase, s.stack) && ValidEnd(end) && Reads(t, i, end) && i + |end| == |t|
  }

  lemma {:induction false} GapBack(t: string, depth: nat, s: State) returns (g: Gap, end: string)
    requires Completes(t, depth, s) && TakesGaps(s.phase)
    ensures GapRead(t, depth, s, g, end)
    decreases |t| - s.i
  {
    hide Completes, StepAny, Inv, Reads, NoEol, Past, GapRead, IsFiller;
    CompletesInv(t, depth, s);
    if s.i < |t| && IsFiller(s.phase, t[s.i]) {
      FillerBack(t, depth, s);
      g, end := GapBack(t, depth, Skip(s, 1));
      FillerRead(t, depth, s, g, end);
      g := Blank(t[s.i], g);
    } else if s.i < |t| && t[s.i] == '/' {
      var c := SlashBack(t, depth, s);
      var n := CommentBack(t, depth, c);
      CommentPast(s, c);
      if c.i + n < |t| {
        g, end := GapBack(t, depth, Skip(s, n + 3));
        CommentRead(t, depth, s, n, g, end);
        g := Comment(t[c.i..c.i + n], t[c.i + n], g);
      } else {
        g, end := NoGap, t[s.i..];
        EndRead(t, depth, s);
      }
    } else {
      g, end := NoGap, "";
      NoneRead(t, depth, s);
    }
  }

  lemma NoneRead(t: string, depth: nat, s: State)
    requires Completes(t, depth, s) && s.i <= |t| && (s.i == |t| ==> Past(s))
    requires s.i < |t| ==> !IsFiller(s.phase, t[s.i]) && t[s.i] != '/'
    ensures GapRead(t, depth, s, NoGap, "")
  {
    hide Completes, Past;
  }

  lemma FillerRead(t: string, depth: nat, s: State, g: Gap, end: string)
    requires s.i < |t| && IsFiller(s.phase, t[s.i]) && GapRead(t, depth, Skip(s, 1), g, end)
    ensures GapRead(t, depth, s, Blank(t[s.i], g), end)
  {
    hide Completes, Past, Reads, IsFiller;
    SamePast(s, Skip(s, 1));
    GapReads(t, s.i, t[s.i..s.i + 1], g);
  }

  lemma CommentRead(t: string, depth: nat, s: State, n: nat, g: Gap, end: string)
    requires s.i + 2 + n < |t| && t[s.i] == '/' && t[s.i + 1] == '/' && NoEol(t[s.i + 2..s.i + 2 + n])
    requires IsEol(t[s.i + 2 + n]) && GapRead(t, depth, Skip(s, n + 3), g, end)
    ensures GapRead(t, depth, s, Comment(t[s.i + 2..s.i + 2 + n], t[s.i + 2 + n], g), end)
  {
    hide Completes, Past, Reads, IsFiller, NoEol, IsEol;
    SamePast(s, Skip(s, n + 3));
    CommentReads(t, s.i, n, g);
  }

  lemma EndRead(t: string, depth: nat, s: State)
    requires Completes(t, depth, s) && BehindRoot(s.phase, s.stack)
    requires s.i + 2 <= |t| && t[s.i] == '/' && t[s.i + 1] == '/' && NoEol(t[s.i + 2..|t|])
    ensures GapRead(t, depth, s, NoGap, t[s.i..])
  {
    hide Completes, Reads, NoEol;
    assert t[s.i + 2..|t|] == t[s.i + 2..];
    EndReads(t, s.i);
    NothingRead(t, s.i);
  }

  lemma NothingRead(t: string, i: nat)
    requires i <= |t|
    ensures Reads(t, i, "")
  {
  }

  lemma FillerBack(t: string, depth: nat, s: State)
    requires Completes(t, depth, s) && TakesGaps(s.phase) && s.i < |t| && IsFiller(s.phase, t[s.i])
    ensures Completes(t, depth, Skip(s, 1))
  {
    hide Completes, StepAny, Inv, Past;
    var s' := Onward(t, depth, s);
    FillerStep(t, depth, s);
  }

  lemma SlashBack(t: string, depth: nat, s: State) returns (c: State)
    requires Completes(t, depth, s) && TakesGaps(s.phase) && s.i < |t| && t[s.i] == '/'
    ensures s.i + 1 < |t| && t[s.i + 1] == '/' && Completes(t, depth, c)
    ensures c == State(InComment, s.stack + [Cmt(s.phase)], s.i + 2)
  {
    hide Completes, Inv, Past;
    c := Onward(t, depth, s);
  }

  lemma CommentPast(s: State, c: State)
    requires c == State(InComment, s.stack + [Cmt(s.phase)], s.i + 2)
    ensures Pop(c.stack) == s.stack && Last(c.stack) == Cmt(s.phase) && (Past(c) ==> BehindRoot(s.phase, s.stack))
  {
  }

  lemma GapReads(t: string, i: nat, c: string, g: Gap)
    requires i < |t| && c == t[i..i + 1] && Reads(t, i + 1, PrintGap(g))
    ensures Reads(t, i, PrintGap(Blank(t[i], g)))
  {
    hide Reads;
    ReadsItself(t, i, i + 1);
    ReadsJoin(t, i, [t[i]], PrintGap(g));
  }

  lemma CommentReads(t: string, i: nat, n: nat, g: Gap)
    requires i + 2 + n < |t| && t[i] == '/' && t[i + 1] == '/' && Reads(t, i + n + 3, PrintGap(g))
    ensures var c := Comment(t[i + 2..i + 2 + n], t[i + 2 + n], g);
      Reads(t, i, PrintGap(c)) && |PrintGap(c)| == n + 3 + |PrintGap(g)|
  {
    hide Reads;
    var body, eol := t[i + 2..i + 2 + n], t[i + 2 + n];
    assert t[i..i + 2] == "//" && t[i + 2 + n..i + 3 + n] == [eol];
    ReadsItself(t, i, i + 2);
    ReadsItself(t, i + 2, i + 2 + n);
    ReadsItself(t, i + 2 + n, i + 3 + n);
    ReadsJoin(t, i + 2 + n, [eol], PrintGap(g));
    ReadsJoin(t, i + 2, body, [eol] + PrintGap(g));
    ReadsJoin(t, i, "//", body + ([eol] + PrintGap(g)));
  }

  lemma EndReads(t: string, i: nat)
    requires i + 2 <= |t| && t[i] == '/' && t[i + 1] == '/' && NoEol(t[i + 2..])
    ensures ValidEnd(t[i..]) && Reads(t, i, t[i..]) && t[i..] != ""
  {
    assert t[i..][..2] == "//" && t[i..][2..] == t[i + 2..];
  }

  /** A gap inside the root: the byte behind it is neither filler nor a slash. */
  lemma InnerGap(t: string, depth: nat, s: State) returns (g: Gap)
    requires Completes(t, depth, s) && TakesGaps(s.phase) && !BehindRoot(s.phase, s.stack)
    ensures ValidGap(g, s.phase) && Reads(t, s.i, PrintGap(g)) && Completes(t, depth, Skip(s, |PrintGap(g)|))
    ensures var i := s.i + |PrintGap(g)|; i < |t| && !IsFiller(s.phase, t[i]) && t[i] != '/'
  {
    hide Completes, Reads, IsFiller, ValidGap;
    var end;
    g, end := GapBack(t, depth, s);
  }

  lemma NameStep(t: string, depth: nat, s: State)
    requires Live(t, depth, s) && s.phase == InObjectName
    ensures s.stack != [] && Last(s.stack).Named? && Last(s.stack).start <= s.i
    ensures t[s.i] == '"' ==> StepAny(t, depth, s) == Next(NameEnd(s, 0))
    ensures t[s.i] != '"' && t[s.i] != '\\' ==> StepAny(t, depth, s) == Next(Skip(s, 1))
    ensures t[s.i] == '\\' ==>
      StepAny(t, depth, s) == match ScanEscape(t, s.i + 1)
        case Ok(p) => Next(s.(i := p))
        case Bad(pos) => Halt(ErrorAt(pos))
        case Overrun => Next(s.(i := |t| + 1))
  {
    hide ScanEscape;
  }

  /** An escape that does not end with the text is one unit of an escaped text. */
  lemma EscapeBack(t: string, i: nat, raw: string)
    requires i < |t| && t[i] == '\\' && ScanEscape(t, i + 1).Ok? && EscapedText(raw, true)
    requires ScanEscape(t, i + 1).end < |t|
    ensures EscapedText(t[i..ScanEscape(t, i + 1).end] + raw, true)
  {
    var p := ScanEscape(t, i + 1).end;
    var w := t[i..p] + raw;
    if t[i + 1] == 'u' {
      ScanHexOnlyHex(t, i + 2, 4);
      assert forall k :: 2 <= k < 6 ==> w[k] == t[i + k];
      assert w[6..] == raw;
    } else {
      assert w[2..] == raw;
    }
  }

  /** A name read back, up to its closing quote. */
  lemma {:induction false} NameBack(t: string, depth: nat, s: State) returns (raw: string)
    requires Completes(t, depth, s) && s.phase == InObjectName
    ensures EscapedText(raw, true) && s.i + |raw| < |t| && raw == t[s.i..s.i + |raw|] && t[s.i + |raw|] == '"'
    ensures s.stack != [] && Last(s.stack).Named? && Last(s.stack).start <= s.i
    ensures Completes(t, depth, NameEnd(s, |raw|))
    decreases |t| - s.i
  {
    hide Completes, StepAny, Inv, EscapedText, ScanEscape, WithTop;
    CompletesInv(t, depth, s);
    var s' := Onward(t, depth, s);
    NameStep(t, depth, s);
    raw := "";
    NoText();
    if t[s.i] != '"' {
      CompletesInv(t, depth, s');
      raw := NameBack(t, depth, s');
      if t[s.i] == '\\' { EscapeBack(t, s.i, raw); } else { PlainBack(t[s.i], raw); }
      var k := s'.i + |raw|;
      if t[s.i] != '\\' { assert t[s.i..s'.i] == [t[s.i]]; }
      assert t[s.i..s'.i] + t[s'.i..k] == t[s.i..k];
      raw := t[s.i..k];
    }
  }

  lemma NoText()
    ensures EscapedText("", true)
  {
  }

  lemma PlainBack(c: char, raw: string)
    requires c != '"' && c != '\\' && EscapedText(raw, true)
    ensures EscapedText([c] + raw, true)
  {
    assert ([c] + raw)[1..] == raw;
  }

  /** A name with its quotes, the colon and the gaps around it. */
  lemma KeyBack(t: string, depth: nat, s: State) returns (name: string, colon: Gap, value: Gap)
    requires Completes(t, depth, s) && s.phase == InObject && s.i < |t| && t[s.i] == '"'
    ensures s.stack != [] && EscapedText(name, true) && ValidGap(colon, FindColon) && ValidGap(value, FindValue)
    ensures Reads(t, s.i, Quoted(name)) && Reads(t, s.i + |name| + 2, PrintGap(colon))
    ensures var i := s.i + |name| + 2 + |PrintGap(colon)|;
      && i < |t| && t[i] == ':' && Reads(t, i + 1, PrintGap(value))
      && (var c := State(FindValue, WithTop(s.stack, Named(s.i + 1, |name|)), i + 1 + |PrintGap(value)|);
          Completes(t, depth, c) && c.i < |t| && !IsFiller(FindValue, t[c.i]) && t[c.i] != '/')
  {
    hide Completes, StepAny, Inv, EscapedText, Reads, ValidGap, IsFiller, WithTop, NameEnd, InName;
    var a := QuoteBack(t, depth, s);
    name := NameBack(t, depth, a);
    InNameEnd(s, |name|);
    QuotedReads(t, s.i, name);
    var b := NameEnd(InName(s), |name|);
    colon := InnerGap(t, depth, b);
    var b' := Skip(b, |PrintGap(colon)|);
    ColonBack(t, depth, b');
    value := InnerGap(t, depth, State(FindValue, b.stack, b'.i + 1));
  }

  lemma QuoteBack(t: string, depth: nat, s: State) returns (a: State)
    requires Completes(t, depth, s) && s.phase == InObject && s.i < |t| && t[s.i] == '"'
    ensures s.stack != [] && a == InName(s) && Completes(t, depth, a)
  {
    hide Completes;
    a := Onward(t, depth, s);
  }

  lemma ColonBack(t: string, depth: nat, s: State)
    requires Completes(t, depth, s) && s.phase == FindColon && s.i < |t|
    requires !IsFiller(FindColon, t[s.i]) && t[s.i] != '/'
    ensures t[s.i] == ':' && Completes(t, depth, State(FindValue, s.stack, s.i + 1))
  {
    hide Completes, Inv;
    var s' := Onward(t, depth, s);
  }

  lemma QuotedReads(t: string, i: nat, name: string)
    requires i + |name| + 1 < |t| && t[i] == '"' && name == t[i + 1..i + 1 + |name|] && t[i + 1 + |name|] == '"'
    ensures Reads(t, i, Quoted(name))
  {
    var j := i + 1 + |name|;
    ReadsItself(t, i, i + 1);
    ReadsItself(t, j, j + 1);
    assert t[i..i + 1] == "\"" && t[j..j + 1] == "\"";
    ReadsJoin(t, i + 1, name, "\"");
    ReadsJoin(t, i, "\"", name + "\"");
  }

  lemma {:induction false} WordBack(t: string, i: nat, w: string)
    requires i <= |t| && ScanWord(t, i, w).Ok?
    ensures Reads(t, i, w)
    decreases |w|
  {
    if w != "" {
      WordBack(t, i + 1, w[1..]);
      assert w == [w[0]] + w[1..];
      ReadsItself(t, i, i + 1);
      ReadsJoin(t, i, [w[0]], w[1..]);
    }
  }

  /** A token that ends before the text is a printed literal. */
  lemma TokenBack(t: string, i: nat, v: Value, end: nat) returns (l: Literal)
    requires i < |t| && StartsValue(t[i]) && ValueToken(t, i) == Token(v, end) && end < |t|
    ensures ValidLiteral(l, t[i] == '+') && Reads(t, i, PrintLiteral(l)) && i + |PrintLiteral(l)| == end
  {
    hide ScanString, ScanWord, ScanNumber, EscapedText;
    if t[i] == '"' {
      var p := end - 1;
      ScanOnlyAccepts(t, i + 1);
      QuotedReads(t, i, t[i + 1..p]);
      l := LString(t[i + 1..p]);
    } else if t[i] == 't' {
      WordBack(t, i, "true");
      l := LTrue;
    } else if t[i] == 'f' {
      WordBack(t, i, "false");
      l := LFalse;
    } else if t[i] == 'n' {
      WordBack(t, i, "null");
      l := LNull;
    } else {
      var n := NumberBack(t, i, end);
      l := LNumber(n);
    }
  }

  lemma NumberBack(t: string, i: nat, end: nat) returns (n: Numeral)
    requires i < |t| && (IsSign(t[i]) || IsDigit(t[i])) && NumberToken(t, i).Token?
    requires NumberToken(t, i).end == end < |t|
    ensures ValidLiteral(LNumber(n), t[i] == '+') && Reads(t, i, PrintNumeral(n)) && i + |PrintNumeral(n)| == end
  {
    hide ScanNumber, Reach, ValidNumeral, PrintNumeral, Atoll, NumeralValue, StopAt, PlaceAt;
    NumberExact(t, i);
    NoWord();
    assert t[i..i] == "";
    StopReaches(t, i, i, Before);
    var w := t[i..end];
    n := WholeIsNumeral(w);
    ReadsItself(t, i, end);
    if !IsDouble(n) { NumeralAtoll(n); }
    if n.sign == "+" { SignFirst(n); }
  }

  lemma SignFirst(n: Numeral)
    ensures n.sign != "" ==> PrintNumeral(n) != "" && PrintNumeral(n)[0] == n.sign[0]
  {
  }

  /** What a byte does where a value may start. */
  lemma ValueStep(t: string, depth: nat, s: State)
    requires Live(t, depth, s) && (s.phase == FindValue || s.phase == InArray) && t[s.i] != '/'
    requires !IsFiller(s.phase, t[s.i]) && !(s.phase == InArray && t[s.i] == ']')
    ensures s.stack != [] && (s.phase == InArray ==> Last(s.stack).Arr?)
    ensures var r := StepAny(t, depth, s); r.Halt? || r == Next(
      if t[s.i] == '{' then State(InObject, Entered(s) + [Obj], s.i + 1)
      else if t[s.i] == '[' then State(InArray, Entered(s) + [Arr(-1)], s.i + 1)
      else State(InValue, Entered(s), s.i))
    ensures t[s.i] != '{' && t[s.i] != '[' && StepAny(t, depth, s).Next? ==>
      StartsValue(t[s.i]) && (t[s.i] == '+' ==> s.phase == InArray)
  {
    hide Bump;
  }

  /** A literal read back. */
  lemma LiteralBack(t: string, depth: nat, s: State) returns (l: Literal)
    requires Completes(t, depth, s) && s.phase == InValue && s.i < |t| && StartsValue(t[s.i])
    ensures s.stack != [] && ValidLiteral(l, t[s.i] == '+') && Reads(t, s.i, PrintLiteral(l))
    ensures Completes(t, depth, State(FindComma, s.stack, s.i + |PrintLiteral(l)|))
  {
    hide Completes, ValueToken, ValidLiteral, Reads, PrintLiteral;
    CompletesInv(t, depth, s);
    var s' := Onward(t, depth, s);
    CompletesInv(t, depth, s');
    var v := ValueToken(t, s.i).value;
    l := TokenBack(t, s.i, v, s'.i);
  }

  lemma PlusOnly(l: Literal, plus: bool, inArray: bool)
    requires ValidLiteral(l, plus) && (plus ==> inArray)
    ensures ValidLiteral(l, inArray)
  {
    hide ValidNumeral, EscapedText, PrintNumeral, NumeralValue;
  }

  lemma CommaIsNoFiller()
    ensures !IsFiller(FindComma, ',')
  {
  }

  /** What a byte behind a gap does where a comma is looked for. */
  lemma CommaBack(t: string, depth: nat, s: State)
    requires Completes(t, depth, s) && s.phase == FindComma && s.stack != [] && s.i < |t|
    requires !IsFiller(FindComma, t[s.i]) && t[s.i] != '/'
    ensures Last(s.stack).Named? || Last(s.stack).Arr?
    ensures t[s.i] == ',' || t[s.i] == if Last(s.stack).Named? then '}' else ']'
    ensures t[s.i] == ',' ==>
      Completes(t, depth, State(if Last(s.stack).Named? then InObject else InArray, s.stack, s.i + 1))
  {
    hide Completes;
    var s' := Onward(t, depth, s);
  }

  /** What a byte behind a gap does where a member may begin. */
  lemma MemberBegins(t: string, depth: nat, s: State)
    requires Completes(t, depth, s) && s.phase == InObject && s.i < |t| && !IsFiller(InObject, t[s.i]) && t[s.i] != '/'
    ensures s.stack != [] && (t[s.i] == '"' || t[s.i] == '}')
  {
    hide Completes;
    var s' := Onward(t, depth, s);
  }

  lemma ArrayOnTop(t: string, depth: nat, s: State)
    requires Completes(t, depth, s) && s.phase == InArray
    ensures s.stack != [] && Last(s.stack).Arr?
  {
    hide Completes;
    CompletesInv(t, depth, s);
  }

  /** The closing bracket of a nested container. */
  lemma CloseBack(t: string, depth: nat, e: State)
    requires Completes(t, depth, e) && |e.stack| > 1 && AtClose(t, e)
    ensures Completes(t, depth, State(FindComma, Pop(e.stack), e.i + 1))
  {
    hide Completes;
    var e' := Onward(t, depth, e);
  }

  lemma EnclosedReads(t: string, i: nat, a: char, w: string, b: char)
    requires i + 1 + |w| < |t| && t[i] == a && Reads(t, i + 1, w) && t[i + 1 + |w|] == b
    ensures Reads(t, i, [a] + (w + [b]))
  {
    hide Reads;
    var j := i + 1 + |w|;
    ReadsItself(t, i, i + 1);
    ReadsItself(t, j, j + 1);
    assert t[i..i + 1] == [a] && t[j..j + 1] == [b];
    ReadsJoin(t, i + 1, w, [b]);
    ReadsJoin(t, i, [a], w + [b]);
  }

  /** A value read back. */
  lemma {:induction false} ValueBack(t: string, depth: nat, s: State) returns (v: Json)
    requires Completes(t, depth, s) && (s.phase == FindValue || s.phase == InArray) && s.i < |t| && t[s.i] != '/'
    requires !IsFiller(s.phase, t[s.i]) && !(s.phase == InArray && t[s.i] == ']')
    ensures s.stack != [] && (s.phase == InArray ==> Last(s.stack).Arr?)
    ensures ValidJson(v, s.phase == InArray) && Reads(t, s.i, Print(v)) && Print(v) != ""
    ensures Completes(t, depth, State(FindComma, Entered(s), s.i + |Print(v)|))
    decreases |t| - s.i, 1
  {
    hide Completes, StepAny, Inv, Reads, ValidLiteral, PrintLiteral, PrintMembers, PrintItems, ValidMembers, ValidItems,
      Bump, MembersEnd, ItemsEnd, IsFiller, StartsValue;
    var s' := Onward(t, depth, s);
    ValueStep(t, depth, s);
    if t[s.i] == '{' {
      var m := MembersBack(t, depth, s');
      EnclosedReads(t, s.i, '{', PrintMembers(m), '}');
      assert Pop(s'.stack) == Entered(s);
      CloseMembers(s', m, t);
      CloseBack(t, depth, MembersEnd(s', m));
      v := Object(m);
    } else if t[s.i] == '[' {
      var m := ItemsBack(t, depth, s');
      EnclosedReads(t, s.i, '[', PrintItems(m), ']');
      assert Pop(s'.stack) == Entered(s);
      CloseItems(s', m, t);
      CloseBack(t, depth, ItemsEnd(s', m));
      v := Array(m);
    } else {
      var l := LiteralBack(t, depth, s');
      PlusOnly(l, t[s.i] == '+', s.phase == InArray);
      NotEmpty(l, t[s.i] == '+');
      v := Lit(l);
    }
  }

  lemma NotEmpty(l: Literal, plus: bool)
    requires ValidLiteral(l, plus)
    ensures PrintLiteral(l) != ""
  {
  }

  lemma CloseMembers(s: State, m: Members, t: string)
    requires |s.stack| > 1 && s.i + |PrintMembers(m)| < |t| && t[s.i + |PrintMembers(m)|] == '}'
    ensures AtClose(t, MembersEnd(s, m)) && |MembersEnd(s, m).stack| > 1
  {
    hide MembersEnd, PrintMembers;
  }

  lemma CloseItems(s: State, m: Items, t: string)
    requires |s.stack| > 1 && Last(s.stack).Arr? && s.i + |PrintItems(m)| < |t| && t[s.i + |PrintItems(m)|] == ']'
    ensures AtClose(t, ItemsEnd(s, m)) && |ItemsEnd(s, m).stack| > 1
  {
    hide ItemsEnd, PrintItems;
  }

  /** One member was read from s, up to the comma or brace behind it. */
  ghost predicate MemberRead(t: string, depth: nat, s: State, m: Members) {
    && m.Member? && m.more.EndMembers? && ValidMembers(m) && s.stack != []
    && Reads(t, s.i, PrintMembers(m)) && s.i < s.i + MoreAt(m) < |t| && |PrintMembers(m)| == MoreAt(m)
    && Completes(t, depth, State(FindComma, MemberStack(s, m), s.i + MoreAt(m)))
    && (t[s.i + MoreAt(m)] == ',' || t[s.i + MoreAt(m)] == '}')
  }

  /** A member list was read from s, up to its closing brace. */
  ghost predicate MembersRead(t: string, depth: nat, s: State, m: Members) {
    && s.stack != [] && ValidMembers(m) && Reads(t, s.i, PrintMembers(m))
    && s.i + |PrintMembers(m)| < |t| && t[s.i + |PrintMembers(m)|] == '}'
    && Completes(t, depth, MembersEnd(s, m))
  }

  lemma {:induction false} MemberBack(t: string, depth: nat, s: State, before: Gap) returns (m: Members)
    requires ValidGap(before, InObject) && Reads(t, s.i, PrintGap(before)) && s.phase == InObject
    requires Completes(t, depth, Skip(s, |PrintGap(before)|))
    requires s.i + |PrintGap(before)| < |t| && t[s.i + |PrintGap(before)|] == '"'
    ensures MemberRead(t, depth, s, m)
    decreases |t| - s.i, 2
  {
    hide Completes, StepAny, Inv, Reads, EscapedText, ValidGap, ValidJson, Print, PrintGap, IsFiller;
    var a := Skip(s, |PrintGap(before)|);
    var name, colon, value := KeyBack(t, depth, a);
    var c := State(FindValue, WithTop(s.stack, Named(a.i + 1, |name|)),
                   a.i + |name| + 2 + |PrintGap(colon)| + 1 + |PrintGap(value)|);
    var v := ValueBack(t, depth, c);
    var d := State(FindComma, c.stack, c.i + |Print(v)|);
    var after := InnerGap(t, depth, d);
    CommaBack(t, depth, Skip(d, |PrintGap(after)|));
    m := Member(before, name, colon, value, v, after, EndMembers);
    MemberReads(t, s.i, m);
    MemberLength(m);
  }

  lemma {:induction false} MembersBack(t: string, depth: nat, s: State) returns (m: Members)
    requires Completes(t, depth, s) && s.phase == InObject
    ensures MembersRead(t, depth, s, m)
    decreases |t| - s.i, 3
  {
    hide Completes, StepAny, Inv, Reads, ValidGap, PrintGap, IsFiller, MembersRead, MemberRead, MoreAt, MemberStack;
    var g := InnerGap(t, depth, s);
    MemberBegins(t, depth, Skip(s, |PrintGap(g)|));
    if t[s.i + |PrintGap(g)|] == '}' {
      m := NoMember(g);
      NoMembersRead(t, depth, s, g);
    } else {
      m := MemberBack(t, depth, s, g);
      var d := MemberBehind(t, depth, s, m);
      if t[d.i] == ',' {
        CommaIsNoFiller();
        CommaBack(t, depth, d);
        var rest := MembersBack(t, depth, State(InObject, d.stack, d.i + 1));
        MoreMembersRead(t, depth, s, m, rest);
        m := m.(more := NextMember(rest));
      } else {
        LastMemberRead(t, depth, s, m);
      }
    }
  }

  lemma MemberBehind(t: string, depth: nat, s: State, m: Members) returns (d: State)
    requires MemberRead(t, depth, s, m)
    ensures m.Member? && s.stack != []
    ensures d == State(FindComma, MemberStack(s, m), s.i + MoreAt(m)) && Completes(t, depth, d)
    ensures s.i < d.i < |t| && (t[d.i] == ',' || t[d.i] == '}') && d.stack != [] && Last(d.stack).Named?
  {
    hide Completes, Reads, ValidMembers, MoreAt, KeyAt, PrintMembers;
    d := State(FindComma, MemberStack(s, m), s.i + MoreAt(m));
  }

  lemma NoMembersRead(t: string, depth: nat, s: State, g: Gap)
    requires Completes(t, depth, Skip(s, |PrintGap(g)|)) && s.phase == InObject
    requires s.stack != [] && ValidGap(g, InObject)
    requires Reads(t, s.i, PrintGap(g)) && s.i + |PrintGap(g)| < |t| && t[s.i + |PrintGap(g)|] == '}'
    ensures MembersRead(t, depth, s, NoMember(g))
  {
    hide Completes, Reads, PrintGap, ValidGap;
  }

  lemma LastMemberRead(t: string, depth: nat, s: State, m: Members)
    requires MemberRead(t, depth, s, m) && t[s.i + MoreAt(m)] == '}'
    ensures MembersRead(t, depth, s, m)
  {
    hide Completes, Reads, ValidMembers, MoreAt, KeyAt, PrintMembers, MemberStack;
  }

  /** The pieces of a member make it up. */
  lemma MemberReads(t: string, i: nat, m: Members)
    requires m.Member? && m.more.EndMembers? && Reads(t, i, PrintGap(m.before))
    requires Reads(t, i + KeyAt(m), Quoted(m.name)) && Reads(t, i + KeyAt(m) + |m.name| + 2, PrintGap(m.beforeColon))
    requires var c := i + KeyAt(m) + |m.name| + 2 + |PrintGap(m.beforeColon)|;
      c < |t| && t[c] == ':' && Reads(t, c + 1, PrintGap(m.beforeValue))
    requires Reads(t, i + ValueAt(m), Print(m.value)) && Reads(t, i + ValueAt(m) + |Print(m.value)|, PrintGap(m.after))
    ensures Reads(t, i, PrintMembers(m))
  {
    hide PrintGap, Print, Reads;
    var w1 := PrintGap(m.after) + "";
    assert w1 == PrintGap(m.after);
    ReadsJoin(t, i + ValueAt(m), Print(m.value), w1);
    var w2 := Print(m.value) + w1;
    ReadsJoin(t, i + ValueAt(m) - |PrintGap(m.beforeValue)|, PrintGap(m.beforeValue), w2);
    var w3 := PrintGap(m.beforeValue) + w2;
    var c := i + KeyAt(m) + |m.name| + 2 + |PrintGap(m.beforeColon)|;
    ReadsItself(t, c, c + 1);
    assert t[c..c + 1] == ":";
    ReadsJoin(t, c, ":", w3);
    ReadsJoin(t, i + KeyAt(m) + |m.name| + 2, PrintGap(m.beforeColon), ":" + w3);
    var w5 := PrintGap(m.beforeColon) + (":" + w3);
    ReadsJoin(t, i + KeyAt(m), Quoted(m.name), w5);
    ReadsJoin(t, i, PrintGap(m.before), Quoted(m.name) + w5);
  }

  /** A member, a comma and the members behind it. */
  lemma MoreMembersRead(t: string, depth: nat, s: State, m: Members, rest: Members)
    requires MemberRead(t, depth, s, m) && t[s.i + MoreAt(m)] == ','
    requires MembersRead(t, depth, State(InObject, MemberStack(s, m), s.i + MoreAt(m) + 1), rest)
    ensures MembersRead(t, depth, s, m.(more := NextMember(rest)))
  {
    hide Completes, ValidMembers, PrintMembers, Reads, MembersEnd, MoreAt, KeyAt, WithTop, MemberLeaves, MemberSlots,
      HeadSlots, Leaves;
    MoreMembersText(t, s.i, m, rest);
    SamePlaces(m, rest);
    MoreValid(m, rest);
    UnfoldMember(s, m.(more := NextMember(rest)), []);
  }

  lemma MoreValid(m: Members, rest: Members)
    requires m.Member? && ValidMembers(m) && ValidMembers(rest)
    ensures ValidMembers(m.(more := NextMember(rest)))
  {
    hide ValidGap, ValidJson, EscapedText;
  }

  lemma SamePlaces(m: Members, rest: Members)
    requires m.Member?
    ensures var all := m.(more := NextMember(rest)); KeyAt(all) == KeyAt(m) && MoreAt(all) == MoreAt(m)
  {
    hide Print, PrintGap;
  }

  lemma MoreMembersText(t: string, i: nat, m: Members, rest: Members)
    requires m.Member? && m.more.EndMembers? && Reads(t, i, PrintMembers(m))
    requires i + MoreAt(m) < |t| && t[i + MoreAt(m)] == ',' && Reads(t, i + MoreAt(m) + 1, PrintMembers(rest))
    ensures var all := m.(more := NextMember(rest));
      Reads(t, i, PrintMembers(all)) && |PrintMembers(all)| == MoreAt(m) + 1 + |PrintMembers(rest)|
  {
    hide PrintGap, Print, Reads, MoreAt;
    var j, tail := i + MoreAt(m), "," + PrintMembers(rest);
    MemberLength(m);
    ReadsItself(t, j, j + 1);
    assert t[j..j + 1] == ",";
    ReadsJoin(t, j, ",", PrintMembers(rest));
    ReadsJoin(t, i, PrintMembers(m), tail);
    MembersTail(m, tail);
    assert PrintMembers(m.(more := NextMember(rest))) == PrintMembers(m) + tail;
  }

  lemma MembersTail(m: Members, tail: string)
    requires m.Member? && m.more.EndMembers?
    ensures PrintMembers(m) + tail
      == PrintGap(m.before) + (Quoted(m.name) + (PrintGap(m.beforeColon) + (":" + (PrintGap(m.beforeValue)
         + (Print(m.value) + (PrintGap(m.after) + tail))))))
  {
    hide PrintGap, Print;
    var w1 := PrintGap(m.after);
    assert w1 + "" == w1;
    var w2 := Print(m.value) + w1;
    assert w2 + tail == Print(m.value) + (w1 + tail);
    var w3 := PrintGap(m.beforeValue) + w2;
    assert w3 + tail == PrintGap(m.beforeValue) + (w2 + tail);
    var w4 := ":" + w3;
    assert w4 + tail == ":" + (w3 + tail);
    var w5 := PrintGap(m.beforeColon) + w4;
    assert w5 + tail == PrintGap(m.beforeColon) + (w4 + tail);
    var w6 := Quoted(m.name) + w5;
    assert w6 + tail == Quoted(m.name) + (w5 + tail);
    assert PrintGap(m.before) + w6 + tail == PrintGap(m.before) + (w6 + tail);
  }

  /** One item was read from s, up to the comma or bracket behind it. */
  ghost predicate ItemRead(t: string, depth: nat, s: State, m: Items) {
    && s.stack != [] && Last(s.stack).Arr? && m.Item? && m.more.EndItems? && ValidItems(m)
    && Reads(t, s.i, PrintItems(m)) && s.i < s.i + ItemMoreAt(m) < |t| && |PrintItems(m)| == ItemMoreAt(m)
    && Completes(t, depth, State(FindComma, Bump(s.stack), s.i + ItemMoreAt(m)))
    && (t[s.i + ItemMoreAt(m)] == ',' || t[s.i + ItemMoreAt(m)] == ']')
  }

  /** An item list was read from s, up to its closing bracket. */
  ghost predicate ItemsRead(t: string, depth: nat, s: State, m: Items) {
    && s.stack != [] && Last(s.stack).Arr? && ValidItems(m) && Reads(t, s.i, PrintItems(m))
    && s.i + |PrintItems(m)| < |t| && t[s.i + |PrintItems(m)|] == ']'
    && Completes(t, depth, ItemsEnd(s, m))
  }

  lemma {:induction false} ItemBack(t: string, depth: nat, s: State, before: Gap) returns (m: Items)
    requires ValidGap(before, InArray) && Reads(t, s.i, PrintGap(before)) && s.phase == InArray
    requires var i := s.i + |PrintGap(before)|;
      i < |t| && t[i] != ']' && t[i] != '/' && !IsFiller(InArray, t[i]) && Completes(t, depth, Skip(s, i - s.i))
    ensures ItemRead(t, depth, s, m)
    decreases |t| - s.i, 2
  {
    hide Completes, StepAny, Inv, Reads, ValidGap, ValidJson, Print, PrintGap, IsFiller;
    var a := Skip(s, |PrintGap(before)|);
    ArrayOnTop(t, depth, a);
    var v := ValueBack(t, depth, a);
    var d := State(FindComma, Bump(s.stack), a.i + |Print(v)|);
    var after := InnerGap(t, depth, d);
    CommaBack(t, depth, Skip(d, |PrintGap(after)|));
    m := Item(before, v, after, EndItems);
    ReadsJoin(t, a.i, Print(v), PrintGap(after));
    ReadsJoin(t, s.i, PrintGap(before), Print(v) + PrintGap(after));
    assert PrintGap(after) + "" == PrintGap(after);
  }

  lemma {:induction false} ItemsBack(t: string, depth: nat, s: State) returns (m: Items)
    requires Completes(t, depth, s) && s.phase == InArray
    ensures ItemsRead(t, depth, s, m)
    decreases |t| - s.i, 3
  {
    hide Completes, StepAny, Inv, Reads, ValidGap, PrintGap, IsFiller, ItemsRead, ItemRead, ItemMoreAt, Bump;
    ArrayOnTop(t, depth, s);
    var g := InnerGap(t, depth, s);
    if t[s.i + |PrintGap(g)|] == ']' {
      m := NoItem(g);
      NoItemsRead(t, depth, s, g);
    } else {
      m := ItemBack(t, depth, s, g);
      var d := ItemBehind(t, depth, s, m);
      if t[d.i] == ',' {
        CommaIsNoFiller();
        CommaBack(t, depth, d);
        var rest := ItemsBack(t, depth, State(InArray, d.stack, d.i + 1));
        MoreItemsRead(t, depth, s, m, rest);
        m := m.(more := NextItem(rest));
      } else {
        LastItemRead(t, depth, s, m);
      }
    }
  }

  lemma ItemBehind(t: string, depth: nat, s: State, m: Items) returns (d: State)
    requires ItemRead(t, depth, s, m)
    ensures m.Item? && d == State(FindComma, Bump(s.stack), s.i + ItemMoreAt(m)) && Completes(t, depth, d)
    ensures s.i < d.i < |t| && (t[d.i] == ',' || t[d.i] == ']') && d.stack != [] && Last(d.stack).Arr?
  {
    hide Completes, Reads, ValidItems, ItemMoreAt, PrintItems;
    d := State(FindComma, Bump(s.stack), s.i + ItemMoreAt(m));
  }

  lemma NoItemsRead(t: string, depth: nat, s: State, g: Gap)
    requires Completes(t, depth, Skip(s, |PrintGap(g)|)) && s.phase == InArray && s.stack != [] && Last(s.stack).Arr?
    requires ValidGap(g, InArray) && Reads(t, s.i, PrintGap(g))
    requires s.i + |PrintGap(g)| < |t| && t[s.i + |PrintGap(g)|] == ']'
    ensures ItemsRead(t, depth, s, NoItem(g))
  {
    hide Completes, Reads, PrintGap, ValidGap;
  }

  lemma LastItemRead(t: string, depth: nat, s: State, m: Items)
    requires ItemRead(t, depth, s, m) && t[s.i + ItemMoreAt(m)] == ']'
    ensures ItemsRead(t, depth, s, m)
  {
    hide Completes, Reads, ValidItems, ItemMoreAt, PrintItems, Bump;
  }

  /** An item, a comma and the items behind it. */
  lemma MoreItemsRead(t: string, depth: nat, s: State, m: Items, rest: Items)
    requires ItemRead(t, depth, s, m) && t[s.i + ItemMoreAt(m)] == ','
    requires ItemsRead(t, depth, State(InArray, Bump(s.stack), s.i + ItemMoreAt(m) + 1), rest)
    ensures ItemsRead(t, depth, s, m.(more := NextItem(rest)))
  {
    hide Completes, ValidItems, PrintItems, Reads, ItemsEnd, ItemMoreAt, Bump, ItemLeaves, ItemSlots, ItemHeadSlots,
      Leaves;
    MoreItemsText(t, s.i, m, rest);
    SameItemPlaces(m, rest);
    MoreItemsValid(m, rest);
    UnfoldItem(s, m.(more := NextItem(rest)), [], 0);
  }

  lemma MoreItemsValid(m: Items, rest: Items)
    requires m.Item? && ValidItems(m) && ValidItems(rest)
    ensures ValidItems(m.(more := NextItem(rest)))
  {
    hide ValidGap, ValidJson;
  }

  lemma SameItemPlaces(m: Items, rest: Items)
    requires m.Item?
    ensures ItemMoreAt(m.(more := NextItem(rest))) == ItemMoreAt(m)
  {
    hide Print, PrintGap;
  }

  lemma MoreItemsText(t: string, i: nat, m: Items, rest: Items)
    requires m.Item? && m.more.EndItems? && Reads(t, i, PrintItems(m))
    requires i + ItemMoreAt(m) < |t| && t[i + ItemMoreAt(m)] == ',' && Reads(t, i + ItemMoreAt(m) + 1, PrintItems(rest))
    ensures var all := m.(more := NextItem(rest));
      Reads(t, i, PrintItems(all)) && |PrintItems(all)| == ItemMoreAt(m) + 1 + |PrintItems(rest)|
  {
    hide PrintGap, Print, Reads, ItemMoreAt;
    var j, tail := i + ItemMoreAt(m), "," + PrintItems(rest);
    ItemLength(m);
    ReadsItself(t, j, j + 1);
    assert t[j..j + 1] == ",";
    ReadsJoin(t, j, ",", PrintItems(rest));
    ReadsJoin(t, i, PrintItems(m), tail);
    ItemsTail(m, tail);
    assert PrintItems(m.(more := NextItem(rest))) == PrintItems(m) + tail;
  }

  lemma ItemsTail(m: Items, tail: string)
    requires m.Item? && m.more.EndItems?
    ensures PrintItems(m) + tail == PrintGap(m.before) + (Print(m.value) + (PrintGap(m.after) + tail))
  {
    hide PrintGap, Print;
    var w1 := PrintGap(m.after);
    assert w1 + "" == w1;
    var w2 := Print(m.value) + w1;
    assert w2 + tail == Print(m.value) + (w1 + tail);
    assert PrintGap(m.before) + w2 + tail == PrintGap(m.before) + (w2 + tail);
  }

  /** The root read back. */
  lemma RootBack(t: string, depth: nat, s: State) returns (v: Json)
    requires Completes(t, depth, s) && s.phase == ParseBegin && s.i < |t|
    requires !IsFiller(ParseBegin, t[s.i]) && t[s.i] != '/'
    ensures !v.Lit? && ValidJson(v, false) && Reads(t, s.i, Print(v))
    ensures Completes(t, depth, RootEnd(RootBracket(s, v), KeepsRoot(v)))
  {
    hide Completes, StepAny, Inv, Reads, PrintMembers, PrintItems, ValidMembers, ValidItems, MembersEnd, ItemsEnd,
      KeepsRootSlot, IsFiller;
    var s' := Onward(t, depth, s);
    RootStep(t, depth, s);
    if t[s.i] == '{' {
      var m := MembersBack(t, depth, s');
      EnclosedReads(t, s.i, '{', PrintMembers(m), '}');
      v := Object(m);
    } else {
      var m := ItemsBack(t, depth, s');
      EnclosedReads(t, s.i, '[', PrintItems(m), ']');
      v := Array(m);
    }
    var e := RootBracket(s, v);
    RootCloseBack(t, depth, e, KeepsRoot(v));
  }

  lemma RootStep(t: string, depth: nat, s: State)
    requires Live(t, depth, s) && s.phase == ParseBegin && !IsFiller(ParseBegin, t[s.i]) && t[s.i] != '/'
    requires !StepAny(t, depth, s).Halt?
    ensures t[s.i] == '{' || t[s.i] == '['
    ensures StepAny(t, depth, s)
         == Next(if t[s.i] == '{' then State(InObject, [Obj], s.i + 1) else State(InArray, [Arr(-1)], s.i + 1))
  {
    hide Inv;
  }

  lemma RootCloseBack(t: string, depth: nat, e: State, keeps: bool)
    requires Completes(t, depth, e) && |e.stack| == 1 && AtClose(t, e)
    requires keeps <==> t[e.i] == '}' && e.phase == FindComma
    ensures Completes(t, depth, RootEnd(e, keeps))
  {
    hide Completes;
    var e' := Onward(t, depth, e);
  }

  /** A text that is read to the end of its root prints a document. */
  lemma DocumentBack(t: string, depth: nat) returns (d: Document)
    requires Completes(t, depth, START)
    ensures ValidDocument(d) && t == PrintDocument(d)
  {
    hide Completes, Reads, Print, PrintGap, ValidJson, ValidGap, ValidEnd, IsFiller, RootBracket, KeepsRoot;
    var lead := InnerGap(t, depth, START);
    var s := Skip(START, |PrintGap(lead)|);
    var root := RootBack(t, depth, s);
    var b := RootEnd(RootBracket(s, root), KeepsRoot(root));
    RootStack(s, root);
    var trail, end := GapBack(t, depth, b);
    d := Document(lead, root, trail, end);
    SameFillerBack(trail, b.phase);
    EndOfText(t, depth, b, trail, end);
    ReadsJoin(t, b.i, PrintGap(trail), end);
    ReadsJoin(t, s.i, Print(root), PrintGap(trail) + end);
    ReadsJoin(t, 0, PrintGap(lead), Print(root) + (PrintGap(trail) + end));
    ReadsAll(t, PrintDocument(d));
  }

  lemma RootStack(s: State, v: Json)
    requires !v.Lit?
    ensures var b := RootEnd(RootBracket(s, v), KeepsRoot(v)); BehindRoot(b.phase, b.stack) && TakesGaps(b.phase)
  {
    hide RootBracket, KeepsRoot;
  }

  lemma {:induction false} SameFillerBack(g: Gap, p: Phase)
    requires ValidGap(g, p) && (p == ParseFinished || p == FindComma)
    ensures ValidGap(g, FindComma)
  {
    if !g.NoGap? { SameFillerBack(g.rest, p); }
  }

  /** Behind the root nothing but gaps and a last comment can follow. */
  lemma EndOfText(t: string, depth: nat, b: State, trail: Gap, end: string)
    requires GapRead(t, depth, b, trail, end) && BehindRoot(b.phase, b.stack) && TakesGaps(b.phase)
    ensures ValidEnd(end) && Reads(t, b.i, PrintGap(trail)) && Reads(t, b.i + |PrintGap(trail)|, end)
    ensures b.i + |PrintGap(trail)| + |end| == |t|
  {
    hide Completes, Reads, ValidGap;
    var c := Skip(b, |PrintGap(trail)|);
    if end == "" {
      if c.i < |t| { NothingBehind(t, depth, c); }
      NothingRead(t, c.i);
    }
  }

  lemma NothingBehind(t: string, depth: nat, c: State)
    requires Completes(t, depth, c) && BehindRoot(c.phase, c.stack) && c.i < |t|
    ensures IsFiller(c.phase, t[c.i]) || t[c.i] == '/'
  {
    hide Completes;
    var c' := Onward(t, depth, c);
  }

  lemma ReadsAll(t: string, w: string)
    requires Reads(t, 0, w) && |w| == |t|
    ensures t == w
  {
    assert forall k :: 0 <= k < |w| ==> t[0 + k] == w[k];
  }

  /** The language of the parser. It reads a text to the end of its root exactly when the
      text is a document that fits the path memory; the events are then its leaves. */
  lemma ParsedExactly(t: string, depth: nat)
    requires 1 <= depth && IsCString(t)
    ensures Completes(t, depth, START) <==>
      exists d :: ValidDocument(d) && t == PrintDocument(d) && DocumentSlots(d) <= depth
    ensures forall d :: ValidDocument(d) && t == PrintDocument(d) && Completes(t, depth, START) ==>
      Inv(t, depth, START) && Run(t, depth, START) == Result(Leaves(d.root, []), Success)
  {
    hide Completes, ValidDocument, PrintDocument, DocumentSlots, Leaves, Run, IsCString;
    if Completes(t, depth, START) {
      CompletesSucceeds(t, depth, START);
      var e := DocumentBack(t, depth);
      forall d | ValidDocument(d) && t == PrintDocument(d)
        ensures DocumentSlots(d) <= depth && Run(t, depth, START) == Result(Leaves(d.root, []), Success)
      {
        ParsePrinted(t, depth, d);
      }
    }
    if d :| ValidDocument(d) && t == PrintDocument(d) && DocumentSlots(d) <= depth { ParsePrinted(t, depth, d); }
  }
}
