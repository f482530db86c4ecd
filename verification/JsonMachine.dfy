/** edJSON_parse as a pushdown automaton: one step is one pass of its main loop. */
module JsonMachine {
  import opened CText
  import opened JsonLexer

  datatype Phase =
    | ParseBegin | ParseFinished | InComment | FindValue | InObject
    | InObjectName | InValue | InArray | FindColon | FindComma

  /** What a used slot of the path memory holds. Obj: an object whose name is not
      known yet; Named: an object with the span of its current name; Arr: an array
      with its current index; Cmt: a comment and the phase it returns to. */
  datatype Frame = Root | Obj | Named(start: nat, size: nat) | Arr(index: int) | Cmt(back: Phase)

  /** stack is path_mem[0..top]; the empty stack is the wrapped top. */
  datatype State = State(phase: Phase, stack: seq<Frame>, i: nat)

  datatype PathElement = Name(raw: string) | Index(k: nat)
  datatype Value = Integer(n: int) | Double(lexeme: string) | Str(raw: string) | Bool(b: bool) | Null
  datatype Event = Event(path: seq<PathElement>, value: Value)

  /** Return codes. Undefined: the C code reads or writes outside its objects. */
  datatype Outcome = Success | NoMemory | NoInput | ErrorAt(pos: nat) | Undefined

  datatype Step = Next(s: State) | Emit(e: Event, s: State) | Halt(o: Outcome)

  /** The _prev field of a slot. */
  function Prev(f: Frame): Phase {
    match f
    case Root => ParseBegin
    case Cmt(back) => back
    case Arr(_) => InArray
    case _ => InObject
  }

  /** A slot below the top: an open bracket that has a name or an index. */
  predicate IsOpen(t: string, f: Frame) {
    match f
    case Named(start, size) => start + size <= |t|
    case Arr(index) => index >= 0
    case _ => false
  }

  predicate AllOpen(t: string, stack: seq<Frame>) {
    stack == [] || (AllOpen(t, Pop(stack)) && IsOpen(t, Last(stack)))
  }

  /** The stack with its top slot replaced. */
  function WithTop(stack: seq<Frame>, f: Frame): (r: seq<Frame>)
    requires stack != []
    ensures |r| == |stack| && Pop(r) == Pop(stack) && Last(r) == f
  {
    Pop(stack) + [f]
  }

  /** JSON white space (RFC 8259 section 2). */
  predicate IsBlank(c: char) {
    c == ' ' || c == '\t' || c == '\r' || c == '\n'
  }

  /** How a scalar may begin. */
  predicate StartsValue(c: char) {
    c == '"' || c == 't' || c == 'f' || c == 'n' || IsSign(c) || IsDigit(c)
  }

  /** What the top slot holds in each phase that needs one. */
  predicate TopShape(t: string, phase: Phase, i: nat, top: Frame) {
    match phase
    case InObject => top.Obj? || (top.Named? && IsOpen(t, top))
    case InObjectName => top.Named? && top.size == 0 && top.start <= i
    case FindColon => top.Named? && IsOpen(t, top)
    case FindValue => top.Named? && IsOpen(t, top)
    case InArray => top.Arr? && top.index >= -1
    case InValue => IsOpen(t, top) && i < |t| && StartsValue(t[i])
    case _ => false
  }

  /** The stack discipline of each phase other than InComment. */
  predicate Shape(t: string, phase: Phase, i: nat, stack: seq<Frame>) {
    if phase == ParseBegin then stack == [Root]
    else if phase == ParseFinished then |stack| == 1 && IsOpen(t, stack[0])
    else if phase == FindComma then AllOpen(t, stack)
    else stack != [] && AllOpen(t, Pop(stack)) && TopShape(t, phase, i, Last(stack))
  }

  /** The phases that skip white space and comments. */
  predicate TakesGaps(p: Phase) {
    p != InComment && p != InObjectName && p != InValue
  }

  /** The parser invariant: the slots spell the open brackets, at most one comment
      slot sits on top of them, and everything fits the path memory. */
  predicate Inv(t: string, depth: nat, s: State) {
    && 1 <= depth
    && |s.stack| <= depth
    && s.i <= |t| + 1
    && if s.phase == InComment then
         s.stack != [] && Last(s.stack).Cmt? && TakesGaps(Last(s.stack).back)
         && Shape(t, Last(s.stack).back, s.i, Pop(s.stack))
       else Shape(t, s.phase, s.i, s.stack)
  }

  /** A state whose next byte exists. */
  predicate Live(t: string, depth: nat, s: State) {
    Inv(t, depth, s) && s.i < |t|
  }

  /** Input left, and whether the byte at hand was already classified. */
  function Measure(t: string, s: State): (nat, nat) {
    (if s.i <= |t| then |t| + 1 - s.i else 0, if s.phase == InValue then 0 else 1)
  }

  predicate Progress(t: string, s: State, s': State) {
    s.i < s'.i || (s.i == s'.i && s.phase != InValue && s'.phase == InValue)
  }

  /** What every step guarantees. */
  predicate GoodStep(t: string, depth: nat, s: State, r: Step) {
    match r
    case Next(s') => Inv(t, depth, s') && Progress(t, s, s')
    case Emit(e, s') => Inv(t, depth, s') && Progress(t, s, s')
    case Halt(_) => true
  }

  const START := State(ParseBegin, [Root], 0)

  function Element(t: string, f: Frame): PathElement
    requires IsOpen(t, f)
  {
    match f
    case Named(start, size) => Name(t[start..start + size])
    case Arr(index) => Index(index)
  }

  function PathOf(t: string, stack: seq<Frame>): (p: seq<PathElement>)
    requires AllOpen(t, stack)
    ensures |p| == |stack|
  {
    if stack == [] then []
    else PathOf(t, Pop(stack)) + [Element(t, Last(stack))]
  }

  function Skip(s: State, n: nat): State {
    s.(i := s.i + n)
  }

  /** A slash must open a comment, which takes one slot. */
  function StepSlash(t: string, depth: nat, s: State): (r: Step)
    requires Live(t, depth, s) && TakesGaps(s.phase)
    ensures GoodStep(t, depth, s, r)
  {
    if s.i + 1 < |t| && t[s.i + 1] == '/' then
      if |s.stack| < depth then
        var s' := State(InComment, s.stack + [Cmt(s.phase)], s.i + 2);
        assert Pop(s'.stack) == s.stack && Last(s'.stack) == Cmt(s.phase);
        Next(s')
      else Halt(NoMemory)
    else Halt(ErrorAt(s.i + 2))
  }

  function StepBegin(t: string, depth: nat, s: State): (r: Step)
    requires Live(t, depth, s) && s.phase == ParseBegin
    ensures GoodStep(t, depth, s, r)
  {
    var c := t[s.i];
    if !IsBlank(c) && c != '/' && c != '{' && c != '[' then Halt(ErrorAt(s.i + 1))
    else if c == '/' then StepSlash(t, depth, s)
    else if c == '{' then Next(State(InObject, [Obj], s.i + 1))
    else if c == '[' then Next(State(InArray, [Arr(-1)], s.i + 1))
    else Next(Skip(s, 1))
  }

  function StepComment(t: string, depth: nat, s: State): (r: Step)
    requires Live(t, depth, s) && s.phase == InComment
    ensures GoodStep(t, depth, s, r)
  {
    if t[s.i] == '\r' || t[s.i] == '\n' then Next(State(Last(s.stack).back, Pop(s.stack), s.i + 1))
    else Next(Skip(s, 1))
  }

  function StepObject(t: string, depth: nat, s: State): (r: Step)
    requires Live(t, depth, s) && s.phase == InObject
    ensures GoodStep(t, depth, s, r)
  {
    var c := t[s.i];
    if !IsBlank(c) && c != '\U{8}' && c != '"' && c != '/' && c != '}' then Halt(ErrorAt(s.i + 1))
    else if c == '/' then StepSlash(t, depth, s)
    else if c == '"' then
      Next(State(InObjectName, WithTop(s.stack, Named(s.i + 1, 0)), s.i + 1))
    else if c == '}' then Next(State(FindComma, Pop(s.stack), s.i + 1))
    else Next(Skip(s, 1))
  }

  function StepName(t: string, depth: nat, s: State): (r: Step)
    requires Live(t, depth, s) && s.phase == InObjectName
    ensures GoodStep(t, depth, s, r)
  {
    if t[s.i] == '\\' then
      match ScanEscape(t, s.i + 1)
      case Ok(p) => Next(s.(i := p))
      case Bad(pos) => Halt(ErrorAt(pos))
      case Overrun => Next(s.(i := |t| + 1))
    else if t[s.i] == '"' then
      var start := Last(s.stack).start;
      Next(State(FindColon, WithTop(s.stack, Named(start, s.i - start)), s.i + 1))
    else Next(Skip(s, 1))
  }

  function StepColon(t: string, depth: nat, s: State): (r: Step)
    requires Live(t, depth, s) && s.phase == FindColon
    ensures GoodStep(t, depth, s, r)
  {
    var c := t[s.i];
    if !IsBlank(c) && c != '/' && c != ':' then Halt(ErrorAt(s.i + 1))
    else if c == '/' then StepSlash(t, depth, s)
    else if c == ':' then Next(State(FindValue, s.stack, s.i + 1))
    else Next(Skip(s, 1))
  }

  /** Opening a container takes one slot. */
  function Push(t: string, depth: nat, phase: Phase, stack: seq<Frame>, f: Frame, i: nat): (r: Step)
    requires |stack| <= depth && AllOpen(t, stack) && 1 <= depth && i <= |t|
    requires (phase == InObject && f == Obj) || (phase == InArray && f == Arr(-1))
    ensures r.Next? ==> Inv(t, depth, r.s) && r.s == State(phase, stack + [f], i)
    ensures !r.Emit?
  {
    if |stack| < depth then
      var s' := State(phase, stack + [f], i);
      assert Pop(s'.stack) == stack;
      Next(s')
    else Halt(NoMemory)
  }

  function StepFindValue(t: string, depth: nat, s: State): (r: Step)
    requires Live(t, depth, s) && s.phase == FindValue
    ensures GoodStep(t, depth, s, r)
  {
    var c := t[s.i];
    if !IsBlank(c) && c != '/' && c != '{' && c != '[' && (!StartsValue(c) || c == '+') then Halt(ErrorAt(s.i + 1))
    else if c == '/' then StepSlash(t, depth, s)
    else if c == '{' then Push(t, depth, InObject, s.stack, Obj, s.i + 1)
    else if c == '[' then Push(t, depth, InArray, s.stack, Arr(-1), s.i + 1)
    else if StartsValue(c) then Next(s.(phase := InValue))
    else Next(Skip(s, 1))
  }

  /** The open array moves on to its next index. */
  function Bump(stack: seq<Frame>): (r: seq<Frame>)
    requires stack != [] && Last(stack).Arr?
    ensures |r| == |stack| && Pop(r) == Pop(stack) && Last(r) == Arr(Last(stack).index + 1)
  {
    WithTop(stack, Arr(Last(stack).index + 1))
  }

  function StepArray(t: string, depth: nat, s: State): (r: Step)
    requires Live(t, depth, s) && s.phase == InArray
    ensures GoodStep(t, depth, s, r)
  {
    var c := t[s.i];
    if !IsBlank(c) && c != '\\' && c != '/' && c != '{' && c != '[' && c != ']' && !StartsValue(c) then
      Halt(ErrorAt(s.i + 1))
    else if c == '/' then StepSlash(t, depth, s)
    else if c == '{' then Push(t, depth, InObject, Bump(s.stack), Obj, s.i + 1)
    else if c == '[' then Push(t, depth, InArray, Bump(s.stack), Arr(-1), s.i + 1)
    else if c == ']' then Next(State(FindComma, Pop(s.stack), s.i + 1))
    else if StartsValue(c) then Next(State(InValue, Bump(s.stack), s.i))
    else Next(Skip(s, 1))
  }

  function StepComma(t: string, depth: nat, s: State): (r: Step)
    requires Live(t, depth, s) && s.phase == FindComma
    ensures GoodStep(t, depth, s, r)
  {
    var c := t[s.i];
    if !IsBlank(c) && c != '/' && c != ',' && c != ']' && c != '}' then Halt(ErrorAt(s.i + 1))
    else if c == '/' then StepSlash(t, depth, s)
    else if c == ',' then
      if s.stack == [] then Halt(Undefined)
      else Next(State(Prev(Last(s.stack)), s.stack, s.i + 1))
    else if c == ']' then
      if s.stack == [] then Halt(Undefined)
      else if Prev(Last(s.stack)) != InArray then Halt(ErrorAt(s.i + 1))
      else Next(State(FindComma, Pop(s.stack), s.i + 1))
    else if c == '}' then
      if s.stack == [] then Halt(Undefined)
      else if Prev(Last(s.stack)) != InObject then Halt(ErrorAt(s.i + 1))
      else if |s.stack| == 1 then Next(State(ParseFinished, s.stack, s.i + 1))
      else Next(State(FindComma, Pop(s.stack), s.i + 1))
    else Next(Skip(s, 1))
  }

  function StepFinished(t: string, depth: nat, s: State): (r: Step)
    requires Live(t, depth, s) && s.phase == ParseFinished
    ensures GoodStep(t, depth, s, r)
  {
    if !IsBlank(t[s.i]) && t[s.i] != '/' then Halt(ErrorAt(s.i + 1))
    else if t[s.i] == '/' then StepSlash(t, depth, s)
    else Next(Skip(s, 1))
  }

  /** A literal value and the offset after it; a failure carries the return code. */
  datatype Token = Token(value: Value, end: nat) | NoToken(o: Outcome)

  function KeywordToken(t: string, i: nat, w: string, v: Value): (r: Token)
    requires i < |t| && w != ""
    ensures r.Token? ==> i < r.end <= |t| + 1
  {
    match ScanWord(t, i, w)
    case Ok(p) => Token(v, p)
    case Bad(pos) => NoToken(ErrorAt(pos))
    case Overrun => NoToken(Undefined)
  }

  function NumberToken(t: string, i: nat): (r: Token)
    requires i < |t| && IsNumberChar(t[i])
    ensures r.Token? ==> i < r.end <= |t| + 1
  {
    match ScanNumber(t, i, NumberState(i, false, false, false, false))
    case BadNumber(pos) => NoToken(ErrorAt(pos))
    case NoNumber => NoToken(Undefined)
    case Number(end, isDouble) =>
      if isDouble then Token(Double(t[i..end]), end)
      else if FitsLongLong(Atoll(t[i..end])) then Token(Integer(ToInt32(Atoll(t[i..end]))), end)
      else NoToken(Undefined)
  }

  function ValueToken(t: string, i: nat): (r: Token)
    requires i < |t| && StartsValue(t[i])
    ensures r.Token? ==> i < r.end <= |t| + 1
  {
    if t[i] == '"' then
      match ScanString(t, i + 1)
      case Ok(p) => Token(Str(t[i + 1..p]), p + 1)
      case Bad(pos) => NoToken(ErrorAt(pos))
      case Overrun => NoToken(Undefined)
    else if t[i] == 't' then KeywordToken(t, i, "true", Bool(true))
    else if t[i] == 'f' then KeywordToken(t, i, "false", Bool(false))
    else if t[i] == 'n' then KeywordToken(t, i, "null", Null)
    else NumberToken(t, i)
  }

  function StepValue(t: string, depth: nat, s: State): (r: Step)
    requires Live(t, depth, s) && s.phase == InValue
    ensures GoodStep(t, depth, s, r)
  {
    match ValueToken(t, s.i)
    case NoToken(o) => Halt(o)
    case Token(v, end) => Emit(Event(PathOf(t, s.stack), v), State(FindComma, s.stack, end))
  }

  /** One pass of the main loop. */
  function StepAny(t: string, depth: nat, s: State): (r: Step)
    requires Live(t, depth, s)
    ensures GoodStep(t, depth, s, r)
  {
    match s.phase
    case ParseBegin => StepBegin(t, depth, s)
    case ParseFinished => StepFinished(t, depth, s)
    case InComment => StepComment(t, depth, s)
    case FindValue => StepFindValue(t, depth, s)
    case InObject => StepObject(t, depth, s)
    case InObjectName => StepName(t, depth, s)
    case InValue => StepValue(t, depth, s)
    case InArray => StepArray(t, depth, s)
    case FindColon => StepColon(t, depth, s)
    case FindComma => StepComma(t, depth, s)
  }

  /** The events of a run, in order, and the value returned at its end. */
  datatype Result = Result(events: seq<Event>, outcome: Outcome)

  function Prepend(events: seq<Event>, r: Result): Result {
    Result(events + r.events, r.outcome)
  }

  /** The main loop from state s, with a callback that never stops it. */
  function Run(t: string, depth: nat, s: State): Result
    requires Inv(t, depth, s)
    decreases Measure(t, s).0, Measure(t, s).1
  {
    if s.i > |t| then Result([], Undefined)
    else if s.i == |t| then Result([], Success)
    else
      match StepAny(t, depth, s)
      case Next(s') => Run(t, depth, s')
      case Emit(e, s') => Prepend([e], Run(t, depth, s'))
      case Halt(o) => Result([], o)
  }
}
