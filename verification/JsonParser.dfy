/** edJSON_parse as it runs: its loops, its cursor and the caller's path memory. */
module JsonParser {
  import opened CText
  import opened JsonLexer
  import opened JsonMachine

  /** One edJSON_path_t; value and size span the name inside the text. */
  datatype Slot = Slot(prev: Phase, index: int, value: nat, size: nat)

  /** What a callback does with a list of events, and whether it stopped the parser. */
  function Deliver<S>(events: seq<Event>, cb: (S, Event) -> (S, int), s: S): (S, bool) {
    if events == [] then (s, false)
    else
      var (s', rc) := cb(s, events[0]);
      if rc != 0 then (s', true) else Deliver(events[1..], cb, s')
  }

  lemma {:induction false} DeliverAppend<S>(a: seq<Event>, b: seq<Event>, cb: (S, Event) -> (S, int), s: S)
    ensures Deliver(a + b, cb, s)
         == if Deliver(a, cb, s).1 then Deliver(a, cb, s) else Deliver(b, cb, Deliver(a, cb, s).0)
    decreases |a|
  {
    if a == [] {
      assert a + b == b;
    } else {
      assert (a + b)[1..] == a[1..] + b;
      DeliverAppend(a[1..], b, cb, cb(s, a[0]).0);
    }
  }

  /** What a whole parse returns: the callback may end it early, with success. */
  ghost function Parsed<S>(json: string, depth: nat, cb: (S, Event) -> (S, int), s: S): (Outcome, S)
    requires 1 <= depth
  {
    var run := Run(json, depth, START);
    var (s', stopped) := Deliver(run.events, cb, s);
    (if stopped then Success else run.outcome, s')
  }

  /** How a slot shows a frame. */
  ghost predicate Shows(slot: Slot, f: Frame) {
    && (!f.Root? ==> slot.prev == Prev(f))
    && (f.Named? ==> slot.index == -1 && slot.value == f.start && slot.size == f.size)
    && (f.Arr? ==> slot.index == f.index)
  }

  /** The path a callback reads from the first slots. */
  function SlotPath(json: string, slots: seq<Slot>): seq<PathElement>
    requires forall k :: 0 <= k < |slots| ==> slots[k].index >= 0 || slots[k].value + slots[k].size <= |json|
  {
    if slots == [] then []
    else
      var slot := Last(slots);
      SlotPath(json, Pop(slots))
      + [if slot.index >= 0 then Index(slot.index) else Name(json[slot.value..slot.value + slot.size])]
  }

  lemma OpenAt(t: string, stack: seq<Frame>, k: nat)
    requires AllOpen(t, stack) && k < |stack|
    ensures IsOpen(t, stack[k])
  {
    if k < |stack| - 1 { OpenAt(t, Pop(stack), k); }
  }

  lemma {:induction false} SlotPathIsPath(json: string, slots: seq<Slot>, stack: seq<Frame>)
    requires |slots| == |stack| && AllOpen(json, stack)
    requires forall k :: 0 <= k < |stack| ==> Shows(slots[k], stack[k])
    ensures forall k :: 0 <= k < |slots| ==> slots[k].index >= 0 || slots[k].value + slots[k].size <= |json|
    ensures SlotPath(json, slots) == PathOf(json, stack)
    decreases |slots|
  {
    forall k | 0 <= k < |slots| ensures slots[k].index >= 0 || slots[k].value + slots[k].size <= |json| {
      OpenAt(json, stack, k);
    }
    if slots != [] {
      assert forall k :: 0 <= k < |Pop(stack)| ==> Pop(slots)[k] == slots[k] && Pop(stack)[k] == stack[k];
      SlotPathIsPath(json, Pop(slots), Pop(stack));
    }
  }

  /** Passes over up to four hex digits, and stops at the terminator. */
  method HexLoop(json: string, from: nat) returns (r: Scan)
    requires from <= |json|
    ensures r == ScanHex(json, from, 4)
  {
    var i, val := from, 0;
    while val < 4 && i < |json|
      invariant from <= i <= |json| && 0 <= val <= 4
      invariant ScanHex(json, i, 4 - val) == ScanHex(json, from, 4)
    {
      if !IsHex(json[i]) { return Bad(i + 1); }
      i, val := i + 1, val + 1;
    }
    return Ok(i);
  }

  method EscapeLoop(json: string, j: nat) returns (r: Scan)
    requires j <= |json|
    ensures r == ScanEscape(json, j)
  {
    if j == |json| { return Overrun; }
    if json[j] != 'u' && !IsSimpleEscape(json[j]) { return Bad(j + 1); }
    if json[j] == 'u' {
      r := HexLoop(json, j + 1);
    } else {
      r := Ok(j + 1);
    }
  }

  /** The loop over the body of a string value. */
  method StringLoop(json: string, from: nat) returns (r: Scan)
    requires from <= |json|
    ensures r == ScanString(json, from)
  {
    var i := from;
    while i < |json| && json[i] != '"'
      invariant from <= i <= |json| && ScanString(json, i) == ScanString(json, from)
    {
      if json[i] == '\n' { return Bad(i + 1); }
      if json[i] == '\\' {
        var e := EscapeLoop(json, i + 1);
        if !e.Ok? { return e; }
        i := e.end;
      } else {
        i := i + 1;
      }
    }
    return Ok(i);
  }

  /** The loop that compares a keyword byte by byte. */
  method WordLoop(json: string, from: nat, w: string) returns (r: Scan)
    requires from <= |json|
    ensures r == ScanWord(json, from, w)
  {
    var i, j := from, 0;
    while j < |w|
      invariant 0 <= j <= |w| && i == from + j <= |json|
      invariant ScanWord(json, i, w[j..]) == ScanWord(json, from, w)
    {
      if i == |json| || json[i] != w[j] { return Bad(i + 1); }
      assert w[j..][1..] == w[j + 1..];
      i, j := i + 1, j + 1;
    }
    return Ok(i);
  }

  /** The scratch buffer holds the token read so far. */
  ghost predicate Holds(nr: array<char>, json: string, start: nat, i: nat)
    reads nr
  {
    start <= i <= |json| && i - start <= nr.Length && nr[..i - start] == json[start..i]
  }

  /** Copies one byte of the number to the scratch buffer. */
  method Take(json: string, start: nat, i: nat, nr: array<char>)
    requires Holds(nr, json, start, i) && i < |json| && i - start < nr.Length
    modifies nr
    ensures Holds(nr, json, start, i + 1)
  {
    nr[i - start] := json[i];
    assert nr[..i + 1 - start] == nr[..i - start] + [json[i]];
  }

  /** The branches after a digit of the number loop. */
  method AfterDigitPass(json: string, start: nat, s: NumberState, nr: array<char>) returns (r: NumberStep)
    requires nr.Length == SCRATCH_SIZE && Holds(nr, json, start, s.i)
    modifies nr
    ensures r == AfterDigit(json, start, s)
    ensures r.More? ==> Holds(nr, json, start, r.s.i)
  {
    var i := s.i;
    if i == |json| {
      r := More(s.(isDouble := true));
    } else if json[i] == '.' {
      if s.dot || s.exponent { return NumberBad(i + 1); }
      if i - start >= SCRATCH_SIZE { return NumberOverrun; }
      Take(json, start, i, nr);
      i := i + 1;
      if i < |json| && !IsDigit(json[i]) { return NumberBad(i + 1); }
      r := More(s.(i := i, isDouble := true, dot := true));
    } else if json[i] == 'e' || json[i] == 'E' {
      if s.exponent { return NumberBad(i + 1); }
      if i - start >= SCRATCH_SIZE { return NumberOverrun; }
      Take(json, start, i, nr);
      i := i + 1;
      if i < |json| && IsSign(json[i]) {
        if s.expSign { return NumberBad(i + 1); }
        return More(s.(i := i, isDouble := true, exponent := true, expSign := true));
      }
      if i < |json| && !IsDigit(json[i]) { return NumberBad(i + 1); }
      r := More(s.(i := i, isDouble := true, exponent := true));
    } else if IsSign(json[i]) {
      r := NumberBad(i + 1);
    } else {
      r := More(s);
    }
  }

  /** One pass of the number loop. */
  method OnePass(json: string, start: nat, s: NumberState, nr: array<char>) returns (r: NumberStep)
    requires s.i < |json| && IsNumberChar(json[s.i])
    requires nr.Length == SCRATCH_SIZE && Holds(nr, json, start, s.i)
    modifies nr
    ensures r == NumberPass(json, start, s) && !r.NumberDone?
    ensures r.More? ==> Holds(nr, json, start, r.s.i)
  {
    var i := s.i;
    if i - start >= SCRATCH_SIZE { return NumberBad(i + 1); }
    if IsSign(json[i]) {
      Take(json, start, i, nr);
      i := i + 1;
      if i == |json| { return NumberOverrun; }
      if !IsDigit(json[i]) { return NumberBad(i + 1); }
      if i - start >= SCRATCH_SIZE { return NumberOverrun; }
    }
    Take(json, start, i, nr);
    r := AfterDigitPass(json, start, s.(i := i + 1), nr);
  }

  /** The number loop with its scratch buffer, which ends up holding the token. */
  method NumberLoop(json: string, start: nat, nr: array<char>) returns (r: NumberScan)
    requires start < |json| && IsNumberChar(json[start]) && nr.Length == SCRATCH_SIZE
    modifies nr
    ensures r == ScanNumber(json, start, NumberState(start, false, false, false, false))
    ensures r.Number? ==> Holds(nr, json, start, r.end) && r.end - start < SCRATCH_SIZE && nr[r.end - start] == '\0'
  {
    hide AfterDigit;
    var s := NumberState(start, false, false, false, false);
    ghost var goal := ScanNumber(json, start, s);
    while s.i < |json| && IsNumberChar(json[s.i])
      invariant Holds(nr, json, start, s.i) && ScanNumber(json, start, s) == goal
      decreases |json| - s.i
    {
      var p := OnePass(json, start, s, nr);
      match p
      case NumberBad(pos) => return BadNumber(pos);
      case NumberOverrun => return NoNumber;
      case More(s') => s := s';
    }
    if s.i - start >= SCRATCH_SIZE { return NoNumber; }
    nr[s.i - start] := '\0';
    return Number(s.i, s.isDouble);
  }

  /** A literal value: the branches of the value state. */
  method ReadValue(json: string, i: nat) returns (r: Token)
    requires i < |json| && StartsValue(json[i])
    ensures r == ValueToken(json, i)
  {
    if json[i] == '"' {
      var e := StringLoop(json, i + 1);
      match e
      case Ok(p) => r := Token(Str(json[i + 1..p]), p + 1);
      case Bad(pos) => r := NoToken(ErrorAt(pos));
      case Overrun => r := NoToken(Undefined);
    } else if json[i] == 't' {
      r := ReadKeyword(json, i, "true", Bool(true));
    } else if json[i] == 'f' {
      r := ReadKeyword(json, i, "false", Bool(false));
    } else if json[i] == 'n' {
      r := ReadKeyword(json, i, "null", Null);
    } else {
      var nr := new char[SCRATCH_SIZE];
      var e := NumberLoop(json, i, nr);
      match e
      case BadNumber(pos) => r := NoToken(ErrorAt(pos));
      case NoNumber => r := NoToken(Undefined);
      case Number(end, isDouble) =>
        var text := nr[..end - i];
        if isDouble { return Token(Double(text), end); }
        var v := Atoll(text);
        if !FitsLongLong(v) { return NoToken(Undefined); }
        r := Token(Integer(ToInt32(v)), end);
    }
  }

  method ReadKeyword(json: string, i: nat, w: string, v: Value) returns (r: Token)
    requires i < |json| && w != ""
    ensures r == KeywordToken(json, i, w, v)
  {
    var e := WordLoop(json, i, w);
    match e
    case Ok(p) => r := Token(v, p);
    case Bad(pos) => r := NoToken(ErrorAt(pos));
    case Overrun => r := NoToken(Undefined);
  }

  datatype Flow = Continue | Return(o: Outcome)

  /** The local variables of edJSON_parse; top is -1 where the C index has wrapped. */
  class Parser {
    const json: string
    const mem: array<Slot>
    var state: Phase
    var top: int
    var i: nat
    ghost var stack: seq<Frame>

    ghost function View(): State
      reads this
    {
      State(state, stack, i)
    }

    ghost predicate Valid()
      reads this, mem
    {
      && mem.Length >= 1
      && top + 1 == |stack|
      && Inv(json, mem.Length, View())
      && forall k :: 0 <= k < |stack| ==> Shows(mem[k], stack[k])
    }

    /** The state after a step that leads on, or the code it returns. */
    ghost predicate Did(step: Step, flow: Flow)
      reads this, mem
    {
      match step
      case Next(s) => flow == Continue && Valid() && View() == s
      case Halt(o) => flow == Return(o)
      case Emit(_, _) => false
    }

    constructor (json: string, mem: array<Slot>)
      requires mem.Length >= 1
      ensures Valid() && View() == START && this.json == json && this.mem == mem
    {
      this.json, this.mem := json, mem;
      state, top, i := ParseBegin, 0, 0;
      stack := [Root];
    }

    /** Takes the next slot, if one is free, and notes the phase to come back to. */
    method PushSlot(prev: Phase, ghost f: Frame) returns (room: bool)
      requires mem.Length >= 1 && top + 1 == |stack| <= mem.Length && prev == Prev(f) && !f.Named? && !f.Arr?
      requires forall k :: 0 <= k < |stack| ==> Shows(mem[k], stack[k])
      modifies this`top, this`stack, mem
      ensures room == (|old(stack)| < mem.Length)
      ensures room ==> stack == old(stack) + [f] && top + 1 == |stack|
      ensures room ==> forall k :: 0 <= k < |stack| ==> Shows(mem[k], stack[k])
    {
      top := top + 1;
      if top >= mem.Length { return false; }
      mem[top] := mem[top].(prev := prev);
      stack := stack + [f];
      return true;
    }

    method PopSlot()
      requires stack != [] && top + 1 == |stack| <= mem.Length
      requires forall k :: 0 <= k < |stack| ==> Shows(mem[k], stack[k])
      modifies this`top, this`stack
      ensures stack == Pop(old(stack)) && top + 1 == |stack|
      ensures forall k :: 0 <= k < |stack| ==> Shows(mem[k], stack[k])
    {
      top := top - 1;
      stack := Pop(stack);
    }

    /** Assignments to the fields of the top slot. */
    method SetTop(slot: Slot, ghost f: Frame)
      requires stack != [] && top + 1 == |stack| <= mem.Length && Shows(slot, f)
      requires forall k :: 0 <= k < |stack| ==> Shows(mem[k], stack[k])
      modifies this`stack, mem
      ensures stack == WithTop(old(stack), f) && mem[top] == slot
      ensures forall k :: 0 <= k < |stack| ==> Shows(mem[k], stack[k])
    {
      mem[top] := slot;
      stack := WithTop(stack, f);
    }

    /** A slash: the start of a comment. */
    method SlashPass() returns (flow: Flow)
      requires Valid() && i < |json| && TakesGaps(state)
      modifies this, mem
      ensures Did(StepSlash(json, mem.Length, old(View())), flow)
    {
      ghost var s := View();
      i := i + 1;
      if i == |json| || json[i] != '/' { return Return(ErrorAt(i + 1)); }
      var room := PushSlot(state, Cmt(state));
      if !room { return Return(NoMemory); }
      state := InComment;
      i := i + 1;
      assert Next(View()) == StepSlash(json, mem.Length, s);
      return Continue;
    }

    /** The first slot, before any bracket. */
    method ResetRoot()
      requires Valid() && state == ParseBegin
      modifies mem
      ensures Valid() && stack == [Root] && mem[0].index == -1
    {
      mem[0] := mem[0].(prev := ParseBegin, index := -1);
    }

    method BeginPass() returns (flow: Flow)
      requires Valid() && i < |json| && state == ParseBegin
      modifies this, mem
      ensures Did(StepBegin(json, mem.Length, old(View())), flow)
    {
      var c := json[i];
      ResetRoot();
      if !IsBlank(c) && c != '/' && c != '{' && c != '[' { return Return(ErrorAt(i + 1)); }
      if c == '/' {
        flow := SlashPass();
        return;
      }
      if c == '{' || c == '[' { OpenRoot(c); }
      i := i + 1;
      return Continue;
    }

    /** The root's bracket takes over the first slot. */
    method OpenRoot(c: char)
      requires Valid() && state == ParseBegin && stack == [Root] && mem[0].index == -1 && (c == '{' || c == '[')
      modifies this`state, this`stack, mem
      ensures state == (if c == '{' then InObject else InArray)
      ensures stack == [if c == '{' then Obj else Arr(-1)] && Shows(mem[0], stack[0])
    {
      if c == '{' {
        state := InObject;
        SetTop(mem[0].(prev := InObject), Obj);
      } else {
        state := InArray;
        SetTop(mem[0].(prev := InArray), Arr(-1));
      }
    }

    method CommentPass() returns (flow: Flow)
      requires Valid() && i < |json| && state == InComment
      modifies this
      ensures Did(StepComment(json, mem.Length, old(View())), flow)
    {
      if json[i] == '\r' || json[i] == '\n' {
        assert Shows(mem[top], Last(stack));
        state := mem[top].prev;
        PopSlot();
      }
      i := i + 1;
      return Continue;
    }

    method ObjectPass() returns (flow: Flow)
      requires Valid() && i < |json| && state == InObject
      modifies this, mem
      ensures Did(StepObject(json, mem.Length, old(View())), flow)
    {
      var c := json[i];
      if !IsBlank(c) && c != '\U{8}' && c != '"' && c != '/' && c != '}' { return Return(ErrorAt(i + 1)); }
      if c == '/' {
        flow := SlashPass();
        return;
      }
      if c == '"' {
        assert Shows(mem[top], Last(stack));
        SetTop(mem[top].(index := -1, value := i + 1, size := 0), Named(i + 1, 0));
        state := InObjectName;
      } else if c == '}' {
        PopSlot();
        state := FindComma;
      }
      i := i + 1;
      return Continue;
    }

    method NamePass() returns (flow: Flow)
      requires Valid() && i < |json| && state == InObjectName
      modifies this, mem
      ensures Did(StepName(json, mem.Length, old(View())), flow)
    {
      if json[i] == '\\' {
        var e := EscapeLoop(json, i + 1);
        if e.Bad? { return Return(ErrorAt(e.pos)); }
        i := if e.Ok? then e.end else |json| + 1;
      } else {
        if json[i] == '"' { NameEnds(); }
        i := i + 1;
      }
      return Continue;
    }

    /** The size of a name is known at its closing quote. */
    method NameEnds()
      requires Valid() && i < |json| && state == InObjectName
      modifies this`state, this`stack, mem
      ensures state == FindColon && top + 1 == |stack|
      ensures stack == WithTop(old(stack), Named(Last(old(stack)).start, i - Last(old(stack)).start))
      ensures forall k :: 0 <= k < |stack| ==> Shows(mem[k], stack[k])
    {
      assert Shows(mem[top], Last(stack));
      SetTop(mem[top].(size := i - mem[top].value), Named(Last(stack).start, i - Last(stack).start));
      state := FindColon;
    }

    method ColonPass() returns (flow: Flow)
      requires Valid() && i < |json| && state == FindColon
      modifies this, mem
      ensures Did(StepColon(json, mem.Length, old(View())), flow)
    {
      var c := json[i];
      if !IsBlank(c) && c != '/' && c != ':' { return Return(ErrorAt(i + 1)); }
      if c == '/' {
        flow := SlashPass();
        return;
      }
      if c == ':' { state := FindValue; }
      i := i + 1;
      return Continue;
    }

    /** A nested container takes the next slot. */
    method OpenNested(c: char) returns (flow: Flow)
      requires Valid() && i < |json| && (c == '{' || c == '[') && AllOpen(json, stack)
      requires state == FindValue || state == InArray
      modifies this, mem
      ensures Did(Push(json, mem.Length, if c == '{' then InObject else InArray, old(stack),
                       if c == '{' then Obj else Arr(-1), old(i) + 1), flow)
    {
      hide AllOpen, TopShape;
      StackFits();
      var room;
      if c == '{' {
        state := InObject;
        room := PushSlot(InObject, Obj);
      } else {
        state := InArray;
        room := PushArray();
      }
      if !room { return Return(NoMemory); }
      i := i + 1;
      return Continue;
    }

    lemma StackFits()
      requires Valid()
      ensures |stack| <= mem.Length && top + 1 == |stack| && i <= |json| + 1
    {
    }

    method PushArray() returns (room: bool)
      requires mem.Length >= 1 && top + 1 == |stack| <= mem.Length
      requires forall k :: 0 <= k < |stack| ==> Shows(mem[k], stack[k])
      modifies this`top, this`stack, mem
      ensures room == (|old(stack)| < mem.Length)
      ensures room ==> stack == old(stack) + [Arr(-1)] && top + 1 == |stack|
      ensures room ==> forall k :: 0 <= k < |stack| ==> Shows(mem[k], stack[k])
    {
      top := top + 1;
      if top >= mem.Length { return false; }
      mem[top] := mem[top].(prev := InArray, index := -1);
      stack := stack + [Arr(-1)];
      return true;
    }

    method FindValuePass() returns (flow: Flow)
      requires Valid() && i < |json| && state == FindValue
      modifies this, mem
      ensures Did(StepFindValue(json, mem.Length, old(View())), flow)
    {
      var c := json[i];
      if !IsBlank(c) && c != '/' && c != '{' && c != '[' && (!StartsValue(c) || c == '+') {
        return Return(ErrorAt(i + 1));
      }
      if c == '/' {
        flow := SlashPass();
      } else if c == '{' || c == '[' {
        flow := OpenNested(c);
      } else if StartsValue(c) {
        state := InValue;
        flow := Continue;
      } else {
        i := i + 1;
        flow := Continue;
      }
    }

    /** The slot of the open array moves on to its next index. */
    method BumpIndex()
      requires stack != [] && top + 1 == |stack| <= mem.Length && Last(stack).Arr?
      requires forall k :: 0 <= k < |stack| ==> Shows(mem[k], stack[k])
      modifies this`stack, mem
      ensures stack == Bump(old(stack)) && top + 1 == |stack|
      ensures forall k :: 0 <= k < |stack| ==> Shows(mem[k], stack[k])
    {
      assert Shows(mem[top], Last(stack));
      SetTop(mem[top].(index := mem[top].index + 1), Arr(Last(stack).index + 1));
    }

    /** An element is about to start: the index moves on first. */
    method ElementPass(c: char) returns (flow: Flow)
      requires Valid() && i < |json| && state == InArray && c == json[i] && (c == '{' || c == '[' || StartsValue(c))
      modifies this, mem
      ensures Did(StepArray(json, mem.Length, old(View())), flow)
    {
      BumpIndex();
      if c == '{' || c == '[' {
        assert Valid();
        flow := OpenNested(c);
      } else {
        state := InValue;
        flow := Continue;
      }
    }

    method ArrayPass() returns (flow: Flow)
      requires Valid() && i < |json| && state == InArray
      modifies this, mem
      ensures Did(StepArray(json, mem.Length, old(View())), flow)
    {
      var c := json[i];
      if !IsBlank(c) && c != '\\' && c != '/' && c != '{' && c != '[' && c != ']' && !StartsValue(c) {
        return Return(ErrorAt(i + 1));
      }
      if c == '/' {
        flow := SlashPass();
      } else if c == '{' || c == '[' || StartsValue(c) {
        flow := ElementPass(c);
      } else {
        if c == ']' {
          PopSlot();
          state := FindComma;
        }
        i := i + 1;
        flow := Continue;
      }
    }

    /** A comma goes back to the container on top; a bracket must match it. */
    method ClosePass(c: char) returns (flow: Flow)
      requires Valid() && i < |json| && state == FindComma && c == json[i] && (c == ',' || c == ']' || c == '}')
      modifies this
      ensures Did(StepComma(json, mem.Length, old(View())), flow)
    {
      if top < 0 { return Return(Undefined); }
      assert Shows(mem[top], Last(stack)) && IsOpen(json, Last(stack));
      var prev := mem[top].prev;
      if c == ',' {
        state := prev;
      } else if c == ']' {
        if prev != InArray { return Return(ErrorAt(i + 1)); }
        PopSlot();
      } else {
        if prev != InObject { return Return(ErrorAt(i + 1)); }
        if top == 0 { state := ParseFinished; } else { PopSlot(); }
      }
      i := i + 1;
      return Continue;
    }

    method CommaPass() returns (flow: Flow)
      requires Valid() && i < |json| && state == FindComma
      modifies this, mem
      ensures Did(StepComma(json, mem.Length, old(View())), flow)
    {
      var c := json[i];
      if !IsBlank(c) && c != '/' && c != ',' && c != ']' && c != '}' { return Return(ErrorAt(i + 1)); }
      if c == '/' {
        flow := SlashPass();
      } else if c == ',' || c == ']' || c == '}' {
        flow := ClosePass(c);
      } else {
        i := i + 1;
        flow := Continue;
      }
    }

    method FinishedPass() returns (flow: Flow)
      requires Valid() && i < |json| && state == ParseFinished
      modifies this, mem
      ensures Did(StepFinished(json, mem.Length, old(View())), flow)
    {
      if !IsBlank(json[i]) && json[i] != '/' { return Return(ErrorAt(i + 1)); }
      if json[i] == '/' {
        flow := SlashPass();
      } else {
        i := i + 1;
        flow := Continue;
      }
    }

    /** The passes of the states that report nothing. */
    method SilentPass() returns (flow: Flow)
      requires Valid() && i < |json| && state != InValue
      modifies this, mem
      ensures Did(StepAny(json, mem.Length, old(View())), flow)
    {
      match state
      case ParseBegin => flow := BeginPass();
      case ParseFinished => flow := FinishedPass();
      case InComment => flow := CommentPass();
      case FindValue => flow := FindValuePass();
      case InObject => flow := ObjectPass();
      case InObjectName => flow := NamePass();
      case InArray => flow := ArrayPass();
      case FindColon => flow := ColonPass();
      case FindComma => flow := CommaPass();
    }

    /** The event the callback is given: the path is read from the slots. */
    method ValuePass() returns (e: Event, flow: Flow)
      requires Valid() && i < |json| && state == InValue
      modifies this
      ensures match StepAny(json, mem.Length, old(View()))
              case Emit(e', s) => flow == Continue && e == e' && Valid() && View() == s
              case Halt(o) => flow == Return(o)
              case Next(_) => false
    {
      var token := ReadValue(json, i);
      match token
      case NoToken(o) => return Event([], Null), Return(o);
      case Token(v, end) =>
        assert forall k :: 0 <= k < |stack| ==> mem[..top + 1][k] == mem[k];
        SlotPathIsPath(json, mem[..top + 1], stack);
        e := Event(SlotPath(json, mem[..top + 1]), v);
        state := FindComma;
        i := end;
        return e, Continue;
    }
  }

  /** One more event of a run, and what the callback makes of it. */
  lemma DeliverNext<S>(sofar: seq<Event>, e: Event, next: Result, run: Result, cb: (S, Event) -> (S, int), s0: S, s: S)
    requires run == Prepend(sofar, Prepend([e], next)) && Deliver(sofar, cb, s0) == (s, false)
    ensures run == Prepend(sofar + [e], next)
    ensures Deliver(sofar + [e], cb, s0) == (cb(s, e).0, cb(s, e).1 != 0)
    ensures cb(s, e).1 != 0 ==> Deliver(run.events, cb, s0) == (cb(s, e).0, true)
  {
    assert run.events == sofar + ([e] + next.events) && (sofar + [e]) + next.events == run.events;
    DeliverAppend(sofar, [e], cb, s0);
    DeliverAppend(sofar + [e], next.events, cb, s0);
    assert [e][1..] == [];
  }

  /** edJSON_parse. The result and the callback's data are those of a full run, unless
      the callback stopped it. */
  method Parse<S>(input: Option<string>, mem: array<Slot>, cb: (S, Event) -> (S, int), s0: S)
    returns (rc: Outcome, s: S)
    requires input.Some? ==> IsCString(input.value)
    modifies mem
    ensures input.None? ==> rc == NoInput && s == s0
    ensures input.Some? && mem.Length == 0 ==> rc == NoMemory && s == s0
    ensures input.Some? && mem.Length > 0 ==> (rc, s) == Parsed(input.value, mem.Length, cb, s0)
  {
    s := s0;
    if input.None? { return NoInput, s; }
    if mem.Length == 0 { return NoMemory, s; }
    var json := input.value;
    var p := new Parser(json, mem);
    ghost var sofar: seq<Event> := [];
    ghost var run := Run(json, mem.Length, START);
    while p.i < |json|
      invariant fresh(p) && p.json == json && p.mem == mem && p.Valid()
      invariant run == Prepend(sofar, Run(json, mem.Length, p.View()))
      invariant Deliver(sofar, cb, s0) == (s, false)
      decreases Measure(json, p.View()).0, Measure(json, p.View()).1
    {
      ghost var v := p.View();
      ghost var rest := Run(json, mem.Length, v);
      DeliverAppend(sofar, rest.events, cb, s0);
      if p.state == InValue {
        var e, flow := p.ValuePass();
        if flow.Return? { return flow.o, s; }
        ghost var next := Run(json, mem.Length, p.View());
        DeliverNext(sofar, e, next, run, cb, s0, s);
        var (s', stop) := cb(s, e);
        s := s';
        if stop != 0 { return Success, s; }
        sofar := sofar + [e];
      } else {
        var flow := p.SilentPass();
        if flow.Return? { return flow.o, s; }
      }
    }
    DeliverAppend(sofar, Run(json, mem.Length, p.View()).events, cb, s0);
    return if p.i > |json| then Undefined else Success, s;
  }
}
