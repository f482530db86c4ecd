/** Runs of the parser over printed values. */
module JsonValues {
  import opened CText
  import opened JsonLexer
  import opened JsonTokens
  import opened JsonMachine
  import opened JsonDocument
  import opened JsonGaps
  import opened JsonNumbers

  /** A byte that ends a number: white space, a slash, a comma or a closing bracket. */
  predicate Delimits(t: string, i: nat) {
    i < |t| && (IsBlank(t[i]) || t[i] == '/' || t[i] == ',' || t[i] == '}' || t[i] == ']')
  }

  /** The phases in which a value may start. */
  predicate AtValue(t: string, depth: nat, s: State) {
    Inv(t, depth, s) && (s.phase == FindValue || s.phase == InArray)
  }

  /** The stack while a value is read: an array moves on to its next index. */
  function Entered(s: State): seq<Frame>
    requires s.stack != [] && (s.phase == InArray ==> Last(s.stack).Arr?)
  {
    if s.phase == InArray then Bump(s.stack) else s.stack
  }

  lemma EnteredOpen(t: string, depth: nat, s: State)
    requires AtValue(t, depth, s)
    ensures s.stack != [] && (s.phase == InArray ==> Last(s.stack).Arr?)
    ensures AllOpen(t, Entered(s)) && |Entered(s)| == |s.stack|
  {
  }

  lemma StringToken(t: string, i: nat, raw: string)
    requires EscapedText(raw, false) && Reads(t, i, Quoted(raw))
    ensures i < |t| && t[i] == '"'
    ensures ValueToken(t, i) == Token(Str(raw), i + |raw| + 2)
  {
    hide ScanString, EscapedText, ScanNumber, ScanWord;
    ReadsEnclosed(t, i, "\"", raw, "\"");
    ScanAccepts(t, i + 1, raw);
    ReadsSlice(t, i + 1, raw);
  }

  lemma KeywordRead(t: string, i: nat, w: string, v: Value)
    requires Reads(t, i, w) && w != ""
    ensures i < |t| && t[i] == w[0] && KeywordToken(t, i, w, v) == Token(v, i + |w|)
  {
    hide ScanWord;
    assert t[i + 0] == w[0];
    ScanWordAccepts(t, i, w);
  }

  lemma LiteralToken(t: string, i: nat, l: Literal, inArray: bool)
    requires ValidLiteral(l, inArray) && Reads(t, i, PrintLiteral(l)) && Delimits(t, i + |PrintLiteral(l)|)
    ensures i < |t| && StartsValue(t[i]) && (t[i] == '+' ==> inArray)
    ensures ValueToken(t, i) == Token(LiteralValue(l), i + |PrintLiteral(l)|)
  {
    hide ScanNumber, ScanString, ScanWord, EscapedText, ValidNumeral, KeywordToken, NumberToken, Reads, PrintNumeral,
      NumeralValue;
    match l
    case LString(raw) => StringToken(t, i, raw);
    case LNumber(n) => NumeralToken(t, i, n, inArray);
    case LTrue => KeywordRead(t, i, "true", Bool(true));
    case LFalse => KeywordRead(t, i, "false", Bool(false));
    case LNull => KeywordRead(t, i, "null", Null);
  }

  lemma {:induction false} DecimalPrefix(ds: string, tail: string, acc: nat)
    requires (forall k :: 0 <= k < |ds| ==> IsDigit(ds[k])) && (tail == "" || !IsDigit(tail[0]))
    ensures DecimalValue(ds + tail, acc) == DecimalValue(ds, acc)
    decreases |ds|
  {
    if ds == "" {
      assert ds + tail == tail;
    } else {
      assert (ds + tail)[1..] == ds[1..] + tail;
      DecimalPrefix(ds[1..], tail, 10 * acc + (ds[0] as int - '0' as int));
    }
  }

  lemma NumeralAtoll(n: Numeral)
    requires ValidNumeral(n) && !IsDouble(n)
    ensures Atoll(PrintNumeral(n)) == NumeralValue(n)
  {
    assert n.digits + ("" + "") == n.digits;
    assert IsDigit(n.digits[0]);
    if n.sign != "" {
      assert PrintNumeral(n)[0] == n.sign[0] && PrintNumeral(n)[1..] == n.digits;
    } else {
      assert PrintNumeral(n) == n.digits;
    }
  }

  lemma NumeralStart(n: Numeral)
    requires ValidNumeral(n)
    ensures PrintNumeral(n) != "" && (IsSign(PrintNumeral(n)[0]) || IsDigit(PrintNumeral(n)[0]))
    ensures PrintNumeral(n)[0] == '+' ==> n.sign == "+"
  {
    assert n.digits[0] == if n.sign != "" then PrintNumeral(n)[1] else PrintNumeral(n)[0];
  }

  lemma NumeralToken(t: string, i: nat, n: Numeral, inArray: bool)
    requires ValidLiteral(LNumber(n), inArray) && Reads(t, i, PrintNumeral(n)) && Delimits(t, i + |PrintNumeral(n)|)
    ensures i < |t| && (IsSign(t[i]) || IsDigit(t[i])) && (t[i] == '+' ==> inArray)
    ensures ValueToken(t, i) == Token(LiteralValue(LNumber(n)), i + |PrintNumeral(n)|)
  {
    hide ScanNumber, DecimalValue, ValidNumeral, PrintNumeral, ScanString, ScanWord, Atoll, NumeralValue;
    NumeralStart(n);
    assert t[i + 0] == PrintNumeral(n)[0];
    ScanNumeral(t, i, n);
    ReadsSlice(t, i, PrintNumeral(n));
    if !IsDouble(n) { NumeralAtoll(n); }
  }

  /** A literal is reported once, with the path the stack spells. */
  lemma LiteralRun(t: string, depth: nat, s: State, l: Literal)
    requires AtValue(t, depth, s) && ValidLiteral(l, s.phase == InArray)
    requires Reads(t, s.i, PrintLiteral(l)) && Delimits(t, s.i + |PrintLiteral(l)|)
    ensures AllOpen(t, Entered(s))
    ensures Leads(t, depth, s, [Event(PathOf(t, Entered(s)), LiteralValue(l))],
                  State(FindComma, Entered(s), s.i + |PrintLiteral(l)|))
  {
    hide ValueToken, Run, Completes;
    EnteredOpen(t, depth, s);
    LiteralToken(t, s.i, l, s.phase == InArray);
    var v := State(InValue, Entered(s), s.i);
    LiteralFound(t, depth, s);
    var e := Event(PathOf(t, Entered(s)), LiteralValue(l));
    var s' := State(FindComma, Entered(s), s.i + |PrintLiteral(l)|);
    assert StepAny(t, depth, v) == Emit(e, s');
    LeadsEmit(t, depth, v, e, s');
    LeadsTrans(t, depth, s, [], v, [e], s');
    assert [] + [e] == [e];
  }

  /** The first byte of a literal is classified without being consumed. */
  lemma LiteralFound(t: string, depth: nat, s: State)
    requires AtValue(t, depth, s) && s.i < |t| && StartsValue(t[s.i])
    requires t[s.i] == '+' ==> s.phase == InArray
    ensures Leads(t, depth, s, [], State(InValue, Entered(s), s.i))
  {
    hide Run, Completes;
    LeadsStep(t, depth, s, State(InValue, Entered(s), s.i));
  }

  lemma LeadsEmit(t: string, depth: nat, s: State, e: Event, s': State)
    requires Live(t, depth, s) && StepAny(t, depth, s) == Emit(e, s')
    ensures Leads(t, depth, s, [e], s')
  {
    hide StepAny;
  }

  /** One escape sequence or plain byte of a name. */
  lemma NameUnit(t: string, depth: nat, s: State, raw: string)
    requires Live(t, depth, s) && s.phase == InObjectName && raw != "" && EscapedText(raw, true) && Reads(t, s.i, raw)
    ensures Leads(t, depth, s, [], Skip(s, UnitSize(raw)))
  {
    hide Run, Completes, IsOpen;
    assert t[s.i + 0] == raw[0];
    if raw[0] == '\\' { ScanEscapeAccepts(t, s.i, raw, true); }
    LeadsStep(t, depth, s, Skip(s, UnitSize(raw)));
  }

  lemma NameQuote(t: string, depth: nat, s: State)
    requires Live(t, depth, s) && s.phase == InObjectName && t[s.i] == '"'
    ensures Leads(t, depth, s, [], NameEnd(s, 0))
  {
    hide Run, Completes;
    LeadsStep(t, depth, s, NameEnd(s, 0));
  }

  /** An object name is read up to the quote that closes it. */
  lemma {:induction false} NameRun(t: string, depth: nat, s: State, raw: string)
    requires Inv(t, depth, s) && s.phase == InObjectName && EscapedText(raw, true) && Reads(t, s.i, raw)
    requires s.i + |raw| < |t| && t[s.i + |raw|] == '"'
    requires s.stack != [] && Last(s.stack).Named? && Last(s.stack).start <= s.i
    ensures Leads(t, depth, s, [], NameEnd(s, |raw|))
    decreases |raw|
  {
    hide Run, Completes, StepAny, Inv, WithTop, EscapedText, UnitSize, Reads;
    if raw == "" {
      NameQuote(t, depth, s);
    } else {
      var n := UnitSize(raw);
      NameUnit(t, depth, s, raw);
      ReadsDrop(t, s.i, raw, n);
      UnitRest(raw);
      NameRun(t, depth, Skip(s, n), raw[n..]);
      LeadsTrans(t, depth, s, [], Skip(s, n), [], NameEnd(s, |raw|));
    }
  }

  /** The state after a name whose remaining n bytes and quote are read. */
  function NameEnd(s: State, n: nat): State
    requires s.stack != [] && Last(s.stack).Named? && Last(s.stack).start <= s.i
  {
    var start := Last(s.stack).start;
    State(FindColon, WithTop(s.stack, Named(start, s.i + n - start)), s.i + n + 1)
  }

  lemma QuoteRun(t: string, depth: nat, s: State)
    requires Live(t, depth, s) && s.phase == InObject && t[s.i] == '"'
    ensures Leads(t, depth, s, [], InName(s))
  {
    hide Run, Completes;
    LeadsStep(t, depth, s, State(InObjectName, WithTop(s.stack, Named(s.i + 1, 0)), s.i + 1));
  }

  /** The state just after the opening quote of a name. */
  function InName(s: State): (r: State)
    requires s.stack != []
    ensures r.i == s.i + 1 && r.phase == InObjectName && r.stack != [] && Last(r.stack) == Named(s.i + 1, 0)
  {
    State(InObjectName, WithTop(s.stack, Named(s.i + 1, 0)), s.i + 1)
  }

  lemma InNameEnd(s: State, n: nat)
    requires s.stack != []
    ensures NameEnd(InName(s), n) == State(FindColon, WithTop(s.stack, Named(s.i + 1, n)), s.i + n + 2)
  {
  }

  lemma KeyRun(t: string, depth: nat, s: State, name: string)
    requires Inv(t, depth, s) && s.phase == InObject && s.stack != [] && EscapedText(name, true)
    requires Reads(t, s.i, Quoted(name))
    ensures Leads(t, depth, s, [], State(FindColon, WithTop(s.stack, Named(s.i + 1, |name|)), s.i + |name| + 2))
  {
    hide Run, Completes, StepAny, EscapedText, NameEnd, Inv, Reads, WithTop, InName, Leads;
    ReadsEnclosed(t, s.i, "\"", name, "\"");
    QuoteRun(t, depth, s);
    LeadsInv(t, depth, s, [], InName(s));
    NameRun(t, depth, InName(s), name);
    InNameEnd(s, |name|);
    LeadsTrans(t, depth, s, [], InName(s), [], NameEnd(InName(s), |name|));
    var none: seq<Event> := [];
    assert none + none == none;
  }

  lemma ColonRun(t: string, depth: nat, s: State)
    requires Live(t, depth, s) && s.phase == FindColon && t[s.i] == ':'
    ensures Leads(t, depth, s, [], State(FindValue, s.stack, s.i + 1))
  {
    hide Run, Completes;
    LeadsStep(t, depth, s, State(FindValue, s.stack, s.i + 1));
  }

  lemma CommaRun(t: string, depth: nat, s: State)
    requires Live(t, depth, s) && s.phase == FindComma && t[s.i] == ',' && s.stack != []
    ensures Leads(t, depth, s, [], State(Prev(Last(s.stack)), s.stack, s.i + 1))
  {
    hide Run, Completes;
    assert IsOpen(t, Last(s.stack));
    LeadsStep(t, depth, s, State(Prev(Last(s.stack)), s.stack, s.i + 1));
  }
}
