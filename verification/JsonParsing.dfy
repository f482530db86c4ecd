/** Parsing a printed document yields exactly its leaves, depth first. */
module JsonParsing {
  import opened CText
  import opened JsonLexer
  import opened JsonTokens
  import opened JsonMachine
  import opened JsonDocument
  import opened JsonGaps
  import opened JsonValues

  /** After a member or item: what ends it, or a comma and the rest. */
  function PrintMoreMembers(m: MoreMembers): string {
    match m case EndMembers => "" case NextMember(rest) => "," + PrintMembers(rest)
  }

  function PrintMoreItems(m: MoreItems): string {
    match m case EndItems => "" case NextItem(rest) => "," + PrintItems(rest)
  }

  /** A gap followed by a delimiter starts with a delimiter. */
  lemma GapDelimits(t: string, i: nat, g: Gap)
    requires ValidGap(g, FindComma) && Reads(t, i, PrintGap(g)) && Delimits(t, i + |PrintGap(g)|)
    ensures Delimits(t, i)
  {
    match g
    case NoGap =>
    case Blank(c, rest) => assert t[i + 0] == PrintGap(g)[0];
    case Comment(_, _, _) => assert t[i + 0] == PrintGap(g)[0];
  }

  /** A container takes a slot, which must exist. */
  lemma OpenRun(t: string, depth: nat, s: State, f: Frame)
    requires AtValue(t, depth, s) && s.i < |t|
    requires (t[s.i] == '{' && f == Obj) || (t[s.i] == '[' && f == Arr(-1))
    ensures Arrives(t, depth, s, |s.stack| < depth, [],
                    State(if f == Obj then InObject else InArray, Entered(s) + [f], s.i + 1))
  {
    EnteredOpen(t, depth, s);
    if |s.stack| < depth {
      LeadsStep(t, depth, s, State(if f == Obj then InObject else InArray, Entered(s) + [f], s.i + 1));
    }
  }

  /** At the bracket that closes the container on top. */
  predicate AtClose(t: string, s: State) {
    && s.i < |t| && s.stack != []
    && ((t[s.i] == '}' && (s.phase == InObject || (s.phase == FindComma && Last(s.stack).Named?)))
        || (t[s.i] == ']' && (s.phase == InArray || (s.phase == FindComma && Last(s.stack).Arr?))))
  }

  /** A nested container gives its slot back when it closes. */
  lemma CloseRun(t: string, depth: nat, s: State)
    requires Inv(t, depth, s) && |s.stack| > 1 && AtClose(t, s)
    ensures Leads(t, depth, s, [], State(FindComma, Pop(s.stack), s.i + 1))
  {
    hide Run, Completes;
    LeadsStep(t, depth, s, State(FindComma, Pop(s.stack), s.i + 1));
  }

  /** Opening, contents and closing of a nested container, put together: e is the
      stack the container was entered with. */
  lemma NestedRun(t: string, depth: nat, s: State, a: State, slots: nat, events: seq<Event>, b: State)
    requires Leads(t, depth, s, [], a) && |a.stack| == |s.stack| + 1 && |a.stack| > 1
    requires Arrives(t, depth, a, |a.stack| + slots <= depth, events, b)
    requires AtClose(t, b) && |b.stack| == |a.stack|
    ensures Arrives(t, depth, s, |s.stack| + (1 + slots) <= depth, events, State(FindComma, Pop(b.stack), b.i + 1))
  {
    hide Run, Completes, StepAny, Inv;
    var room := |a.stack| + slots <= depth;
    var c := State(FindComma, Pop(b.stack), b.i + 1);
    if room { CloseRun(t, depth, b); }
    SilentlyThen(t, depth, s, true, a, room, events, b);
    ArrivesThen(t, depth, s, room, events, b, true, [], c);
    assert events + [] == events;
  }

  /** From where a value starts to just after it: the stack is the one the value was
      entered with, and the events are the leaves of the value. */
  lemma {:induction false} ValueRun(t: string, depth: nat, s: State, v: Json)
    requires AtValue(t, depth, s) && ValidJson(v, s.phase == InArray) && Reads(t, s.i, Print(v))
    requires Delimits(t, s.i + |Print(v)|)
    ensures AllOpen(t, Entered(s))
    ensures Arrives(t, depth, s, |s.stack| + Slots(v) <= depth, Leaves(v, PathOf(t, Entered(s))),
                    State(FindComma, Entered(s), s.i + |Print(v)|))
    decreases v, 3
  {
    hide Run, Completes, StepAny, Shape, IsOpen, PathOf, MemberLeaves, ItemLeaves, PrintMembers, PrintItems,
      ValidMembers, ValidItems, MemberSlots, ItemSlots, ValidLiteral, PrintLiteral, LiteralValue, Bump;
    EnteredOpen(t, depth, s);
    match v
    case Lit(l) => LiteralRun(t, depth, s, l);
    case Object(m) => ObjectRun(t, depth, s, m);
    case Array(m) => ArrayRun(t, depth, s, m);
  }

  lemma {:induction false} ObjectRun(t: string, depth: nat, s: State, m: Members)
    requires AtValue(t, depth, s) && ValidMembers(m) && Reads(t, s.i, "{" + (PrintMembers(m) + "}"))
    ensures AllOpen(t, Entered(s))
    ensures Arrives(t, depth, s, |s.stack| + (1 + MemberSlots(m)) <= depth, MemberLeaves(m, PathOf(t, Entered(s))),
                    State(FindComma, Entered(s), s.i + |PrintMembers(m)| + 2))
    decreases m, 2
  {
    hide MembersEnd, Run, Completes, StepAny, Inv, AllOpen, Reads, MemberLeaves, PrintMembers, ValidMembers, PathOf,
      MemberSlots, Bump;
    EnteredOpen(t, depth, s);
    ReadsEnclosed(t, s.i, "{", PrintMembers(m), "}");
    OpenRun(t, depth, s, Obj);
    if |s.stack| < depth {
      var a := State(InObject, Entered(s) + [Obj], s.i + 1);
      assert Pop(a.stack) == Entered(s);
      var b := MembersEnd(a, m);
      MembersRun(t, depth, a, m);
      NestedRun(t, depth, s, a, MemberSlots(m), MemberLeaves(m, PathOf(t, Entered(s))), b);
    }
  }

  lemma {:induction false} ArrayRun(t: string, depth: nat, s: State, m: Items)
    requires AtValue(t, depth, s) && ValidItems(m) && Reads(t, s.i, "[" + (PrintItems(m) + "]"))
    ensures AllOpen(t, Entered(s))
    ensures Arrives(t, depth, s, |s.stack| + (1 + ItemSlots(m)) <= depth, ItemLeaves(m, PathOf(t, Entered(s)), 0),
                    State(FindComma, Entered(s), s.i + |PrintItems(m)| + 2))
    decreases m, 2
  {
    hide ItemsEnd, Run, Completes, StepAny, Inv, AllOpen, Reads, ItemLeaves, PrintItems, ValidItems, PathOf,
      ItemSlots, Bump;
    EnteredOpen(t, depth, s);
    ReadsEnclosed(t, s.i, "[", PrintItems(m), "]");
    OpenRun(t, depth, s, Arr(-1));
    if |s.stack| < depth {
      var a := State(InArray, Entered(s) + [Arr(-1)], s.i + 1);
      assert Pop(a.stack) == Entered(s);
      var b := ItemsEnd(a, m);
      ItemsRun(t, depth, a, m, 0);
      NestedRun(t, depth, s, a, ItemSlots(m), ItemLeaves(m, PathOf(t, Entered(s)), 0), b);
    }
  }

  /** Offsets inside a printed member: its key, its value and what follows its last gap. */
  function KeyAt(m: Members): nat
    requires m.Member?
  {
    |PrintGap(m.before)|
  }

  function ValueAt(m: Members): nat
    requires m.Member?
  {
    KeyAt(m) + |m.name| + 2 + |PrintGap(m.beforeColon)| + 1 + |PrintGap(m.beforeValue)|
  }

  function MoreAt(m: Members): nat
    requires m.Member?
  {
    ValueAt(m) + |Print(m.value)| + |PrintGap(m.after)|
  }

  /** The pieces of a printed member. */
  lemma MemberText(t: string, i: nat, m: Members)
    requires m.Member? && Reads(t, i, PrintMembers(m))
    ensures Reads(t, i, PrintGap(m.before))
    ensures Reads(t, i + KeyAt(m), Quoted(m.name))
    ensures Reads(t, i + KeyAt(m) + |m.name| + 2, PrintGap(m.beforeColon))
    ensures i + KeyAt(m) + |m.name| + 2 + |PrintGap(m.beforeColon)| < |t|
    ensures t[i + KeyAt(m) + |m.name| + 2 + |PrintGap(m.beforeColon)|] == ':'
    ensures Reads(t, i + KeyAt(m) + |m.name| + 2 + |PrintGap(m.beforeColon)| + 1, PrintGap(m.beforeValue))
    ensures Reads(t, i + ValueAt(m), Print(m.value))
    ensures Reads(t, i + ValueAt(m) + |Print(m.value)|, PrintGap(m.after))
    ensures Reads(t, i + MoreAt(m), PrintMoreMembers(m.more))
    ensures |PrintMembers(m)| == MoreAt(m) + |PrintMoreMembers(m.more)|
  {
    hide PrintGap, Print;
    var more := PrintMoreMembers(m.more);
    var w1 := PrintGap(m.after) + more;
    var w2 := Print(m.value) + w1;
    var w3 := PrintGap(m.beforeValue) + w2;
    var w4 := ":" + w3;
    var w5 := PrintGap(m.beforeColon) + w4;
    var key := Quoted(m.name);
    assert PrintMembers(m) == PrintGap(m.before) + (key + w5);
    ReadsSplit(t, i, PrintGap(m.before), key + w5);
    ReadsSplit(t, i + KeyAt(m), key, w5);
    ReadsSplit(t, i + KeyAt(m) + |key|, PrintGap(m.beforeColon), w4);
    var c := i + KeyAt(m) + |key| + |PrintGap(m.beforeColon)|;
    ReadsSplit(t, c, ":", w3);
    assert t[c + 0] == ":"[0];
    ReadsSplit(t, c + 1, PrintGap(m.beforeValue), w2);
    ReadsSplit(t, i + ValueAt(m), Print(m.value), w1);
    ReadsSplit(t, i + ValueAt(m) + |Print(m.value)|, PrintGap(m.after), more);
  }

  /** The stack while the value of a member is read. */
  function MemberStack(s: State, m: Members): seq<Frame>
    requires s.stack != [] && m.Member?
  {
    WithTop(s.stack, Named(s.i + KeyAt(m) + 1, |m.name|))
  }

  /** The state before the colon of a member. */
  function AtColon(s: State, m: Members): State
    requires s.stack != [] && m.Member?
  {
    State(FindColon, MemberStack(s, m), s.i + KeyAt(m) + |m.name| + 2 + |PrintGap(m.beforeColon)|)
  }

  /** A member up to its colon: gap, name, gap. */
  lemma NamePart(t: string, depth: nat, s: State, m: Members)
    requires Inv(t, depth, s) && s.phase == InObject && m.Member? && ValidMembers(m)
    requires Reads(t, s.i, PrintMembers(m))
    ensures s.stack != []
    ensures
      var fits := |s.stack| + GapSlots(m.before) <= depth && |s.stack| + GapSlots(m.beforeColon) <= depth;
      Arrives(t, depth, s, fits, [], AtColon(s, m))
  {
    hide Run, Completes, StepAny, Inv, IsOpen, EscapedText, Print, PrintGap, ValidGap, PrintMembers, AllOpen, Reads,
      ValidJson;
    StackNotEmpty(t, depth, s);
    MemberText(t, s.i, m);
    var a := Skip(s, KeyAt(m));
    var b := State(FindColon, MemberStack(s, m), a.i + |m.name| + 2);
    var r := |s.stack| + GapSlots(m.before) <= depth;
    GapRun(t, depth, s, m.before);
    if r {
      KeyRun(t, depth, a, m.name);
      GapRun(t, depth, b, m.beforeColon);
    }
    SilentlyThen(t, depth, s, r, a, true, [], b);
    SilentlyThen(t, depth, s, r, b, |s.stack| + GapSlots(m.beforeColon) <= depth, [], AtColon(s, m));
  }

  /** A member up to its value: gap, name, gap, colon, gap. */
  lemma KeyPart(t: string, depth: nat, s: State, m: Members)
    requires Inv(t, depth, s) && s.phase == InObject && m.Member? && ValidMembers(m)
    requires Reads(t, s.i, PrintMembers(m))
    ensures s.stack != []
    ensures Arrives(t, depth, s,
              |s.stack| + Max(GapSlots(m.before), Max(GapSlots(m.beforeColon), GapSlots(m.beforeValue))) <= depth,
              [], State(FindValue, MemberStack(s, m), s.i + ValueAt(m)))
  {
    hide Run, Completes, StepAny, Inv, IsOpen, EscapedText, Print, PrintGap, ValidGap, PrintMembers, AllOpen, Reads,
      ValidJson;
    NamePart(t, depth, s, m);
    MemberText(t, s.i, m);
    var c := AtColon(s, m);
    var d := State(FindValue, MemberStack(s, m), c.i + 1);
    var e := State(FindValue, MemberStack(s, m), s.i + ValueAt(m));
    var r := |s.stack| + GapSlots(m.before) <= depth && |s.stack| + GapSlots(m.beforeColon) <= depth;
    if r {
      ColonRun(t, depth, c);
      GapRun(t, depth, d, m.beforeValue);
    }
    SilentlyThen(t, depth, s, r, c, true, [], d);
    SilentlyThen(t, depth, s, r, d, |s.stack| + GapSlots(m.beforeValue) <= depth, [], e);
  }

  lemma StackNotEmpty(t: string, depth: nat, s: State)
    requires Inv(t, depth, s) && (s.phase == InObject || s.phase == InArray)
    ensures s.stack != [] && AllOpen(t, Pop(s.stack))
  {
  }

  /** The path of a member is that of its object and its name. */
  lemma MemberPath(t: string, depth: nat, s: State, m: Members)
    requires Inv(t, depth, s) && s.phase == InObject && m.Member? && Reads(t, s.i + KeyAt(m), Quoted(m.name))
    ensures s.stack != [] && AllOpen(t, Pop(s.stack)) && AllOpen(t, MemberStack(s, m))
    ensures PathOf(t, MemberStack(s, m)) == PathOf(t, Pop(s.stack)) + [Name(m.name)]
  {
    ReadsEnclosed(t, s.i + KeyAt(m), "\"", m.name, "\"");
    ReadsSlice(t, s.i + KeyAt(m) + 1, m.name);
  }

  /** The state at the closing brace of an object. */
  function MembersEnd(s: State, m: Members): (e: State)
    requires s.stack != []
    ensures |e.stack| == |s.stack| && Pop(e.stack) == Pop(s.stack) && e.i == s.i + |PrintMembers(m)|
    ensures if KeepsRootSlot(m) then e.phase == FindComma && Last(e.stack).Named? else e.phase == InObject
    decreases m
  {
    match m
    case NoMember(gap) => State(InObject, s.stack, s.i + |PrintGap(gap)|)
    case Member(_, _, _, _, _, _, more) =>
      MemberLength(m);
      match more
      case EndMembers => State(FindComma, MemberStack(s, m), s.i + MoreAt(m))
      case NextMember(rest) => MembersEnd(State(InObject, MemberStack(s, m), s.i + MoreAt(m) + 1), rest)
  }

  lemma MemberLength(m: Members)
    requires m.Member?
    ensures |PrintMembers(m)| == MoreAt(m) + |PrintMoreMembers(m.more)|
  {
    hide Print, PrintGap;
  }

  /** A value and the gap after it. */
  lemma {:induction false} ValueAndGapRun(t: string, depth: nat, s: State, v: Json, after: Gap)
    requires AtValue(t, depth, s) && ValidJson(v, s.phase == InArray) && ValidGap(after, FindComma)
    requires Reads(t, s.i, Print(v)) && Reads(t, s.i + |Print(v)|, PrintGap(after))
    requires Delimits(t, s.i + |Print(v)| + |PrintGap(after)|)
    ensures AllOpen(t, Entered(s))
    ensures Arrives(t, depth, s, |s.stack| + Max(Slots(v), GapSlots(after)) <= depth,
                    Leaves(v, PathOf(t, Entered(s))),
                    State(FindComma, Entered(s), s.i + |Print(v)| + |PrintGap(after)|))
    decreases v, 4
  {
    hide Run, Completes, StepAny, Inv, IsOpen, AllOpen, Reads, Delimits, Print, PrintGap, Leaves, PathOf, Slots,
      GapSlots, ValidJson, ValidGap, Bump;
    EnteredOpen(t, depth, s);
    GapDelimits(t, s.i + |Print(v)|, after);
    ValueRun(t, depth, s, v);
    var a := State(FindComma, Entered(s), s.i + |Print(v)|);
    var b := State(FindComma, Entered(s), s.i + |Print(v)| + |PrintGap(after)|);
    var events := Leaves(v, PathOf(t, Entered(s)));
    var room, q := |s.stack| + Slots(v) <= depth, |s.stack| + GapSlots(after) <= depth;
    if room { GapRun(t, depth, a, after); }
    ArrivesThen(t, depth, s, room, events, a, q, [], b);
    assert events + [] == events;
  }

  lemma NoMemberRun(t: string, depth: nat, s: State, m: Members, path: seq<PathElement>)
    requires Inv(t, depth, s) && s.phase == InObject && m.NoMember? && ValidMembers(m) && Reads(t, s.i, PrintMembers(m))
    ensures s.stack != []
    ensures Arrives(t, depth, s, |s.stack| + MemberSlots(m) <= depth, MemberLeaves(m, path), MembersEnd(s, m))
  {
    hide Run, Completes;
    GapRun(t, depth, s, m.gap);
  }

  /** From '{' or a comma to the closing brace of an object. */
  lemma {:induction false} MembersRun(t: string, depth: nat, s: State, m: Members)
    requires Inv(t, depth, s) && s.phase == InObject && ValidMembers(m) && Reads(t, s.i, PrintMembers(m))
    requires s.i + |PrintMembers(m)| < |t| && t[s.i + |PrintMembers(m)|] == '}'
    ensures s.stack != [] && AllOpen(t, Pop(s.stack))
    ensures Arrives(t, depth, s, |s.stack| + MemberSlots(m) <= depth,
                    MemberLeaves(m, PathOf(t, Pop(s.stack))), MembersEnd(s, m))
    decreases m, 1
  {
    hide Run, Completes, StepAny, Inv, AllOpen, Reads, PrintMembers, Leaves, PathOf, ValidJson, ValidGap, EscapedText,
      WithTop, MembersEnd, MemberLeaves, MemberSlots, HeadSlots, MoreAt, Delimits, Print, PrintGap, Slots, GapSlots,
      KeyAt;
    StackNotEmpty(t, depth, s);
    if m.NoMember? {
      NoMemberRun(t, depth, s, m, PathOf(t, Pop(s.stack)));
    } else {
      var path := PathOf(t, Pop(s.stack));
      UnfoldMember(s, m, path);
      MemberText(t, s.i, m);
      MoreDelimits(t, s.i + MoreAt(m), m.more);
      MemberRun(t, depth, s, m);
      if m.more.NextMember? {
        var b := State(FindComma, MemberStack(s, m), s.i + MoreAt(m));
        var room := |s.stack| + HeadSlots(m) <= depth;
        var rest := m.more.members;
        if room { NextMemberRun(t, depth, s, b, rest); }
        ArrivesThen(t, depth, s, room, Leaves(m.value, path + [Name(m.name)]), b,
                    |s.stack| + MemberSlots(rest) <= depth, MemberLeaves(rest, path), MembersEnd(s, m));
      }
    }
  }

  /** One unfolding of the functions of a non-empty member list. */
  lemma UnfoldMember(s: State, m: Members, path: seq<PathElement>)
    requires m.Member? && s.stack != []
    ensures match m.more
            case EndMembers =>
              && MemberLeaves(m, path) == Leaves(m.value, path + [Name(m.name)])
              && MemberSlots(m) == HeadSlots(m)
              && MembersEnd(s, m) == State(FindComma, MemberStack(s, m), s.i + MoreAt(m))
            case NextMember(rest) =>
              && MemberLeaves(m, path) == Leaves(m.value, path + [Name(m.name)]) + MemberLeaves(rest, path)
              && MemberSlots(m) == Max(HeadSlots(m), MemberSlots(rest))
              && MembersEnd(s, m) == MembersEnd(State(InObject, MemberStack(s, m), s.i + MoreAt(m) + 1), rest)
  {
    hide Leaves, Slots, GapSlots, Print, PrintGap, PrintMembers, KeepsRootSlot;
    var events := Leaves(m.value, path + [Name(m.name)]);
    assert events + [] == events;
  }

  /** Slots for a member itself. */
  function HeadSlots(m: Members): nat
    requires m.Member?
  {
    Max(Max(GapSlots(m.before), Max(GapSlots(m.beforeColon), GapSlots(m.beforeValue))),
        Max(Slots(m.value), GapSlots(m.after)))
  }

  /** One member, up to the comma or brace after it. */
  lemma {:induction false} MemberRun(t: string, depth: nat, s: State, m: Members)
    requires m.Member?
    requires Inv(t, depth, s) && s.phase == InObject && ValidMembers(m) && Reads(t, s.i, PrintMembers(m))
    requires Delimits(t, s.i + MoreAt(m))
    ensures s.stack != [] && AllOpen(t, Pop(s.stack))
    ensures Arrives(t, depth, s, |s.stack| + HeadSlots(m) <= depth,
                    Leaves(m.value, PathOf(t, Pop(s.stack)) + [Name(m.name)]),
                    State(FindComma, MemberStack(s, m), s.i + MoreAt(m)))
    decreases m, 0
  {
    hide Run, Completes, StepAny, Inv, IsOpen, EscapedText, Print, PrintGap, PrintMembers, Leaves, PathOf, Slots,
      GapSlots, AllOpen, Reads, Delimits, ValidGap, ValidJson, Bump;
    StackNotEmpty(t, depth, s);
    MemberText(t, s.i, m);
    MemberPath(t, depth, s, m);
    var r1 := |s.stack| + Max(GapSlots(m.before), Max(GapSlots(m.beforeColon), GapSlots(m.beforeValue))) <= depth;
    var r2 := |s.stack| + Max(Slots(m.value), GapSlots(m.after)) <= depth;
    var a := State(FindValue, MemberStack(s, m), s.i + ValueAt(m));
    var b := State(FindComma, MemberStack(s, m), s.i + MoreAt(m));
    KeyPart(t, depth, s, m);
    if r1 { ValueAndGapRun(t, depth, a, m.value, m.after); }
    SilentlyThen(t, depth, s, r1, a, r2, Leaves(m.value, PathOf(t, Pop(s.stack)) + [Name(m.name)]), b);
  }

  /** A comma and the members after it; s is any earlier state of the same object. */
  lemma {:induction false} NextMemberRun(t: string, depth: nat, s: State, b: State, m: Members)
    requires Inv(t, depth, b) && b.phase == FindComma && |b.stack| == |s.stack| > 0 && Pop(b.stack) == Pop(s.stack)
    requires Last(b.stack).Named? && ValidMembers(m) && Reads(t, b.i, "," + PrintMembers(m))
    requires b.i + 1 + |PrintMembers(m)| < |t| && t[b.i + 1 + |PrintMembers(m)|] == '}'
    ensures AllOpen(t, Pop(s.stack))
    ensures Arrives(t, depth, b, |s.stack| + MemberSlots(m) <= depth, MemberLeaves(m, PathOf(t, Pop(s.stack))),
                    MembersEnd(State(InObject, b.stack, b.i + 1), m))
    decreases m, 3
  {
    hide Run, Completes, StepAny, Inv, IsOpen, AllOpen, PrintMembers, Leaves, PathOf, MemberSlots, MemberLeaves,
      MembersEnd;
    ReadsSplit(t, b.i, ",", PrintMembers(m));
    assert t[b.i + 0] == ","[0];
    var c := State(InObject, b.stack, b.i + 1);
    CommaRun(t, depth, b);
    MembersRun(t, depth, c, m);
    SilentlyThen(t, depth, b, true, c, |s.stack| + MemberSlots(m) <= depth, MemberLeaves(m, PathOf(t, Pop(s.stack))),
                 MembersEnd(c, m));
  }

  /** What follows a member starts with a comma or the closing brace. */
  lemma MoreDelimits(t: string, i: nat, more: MoreMembers)
    requires Reads(t, i, PrintMoreMembers(more))
    requires i + |PrintMoreMembers(more)| < |t| && t[i + |PrintMoreMembers(more)|] == '}'
    ensures Delimits(t, i)
  {
    if more.NextMember? { assert t[i + 0] == PrintMoreMembers(more)[0]; }
  }

  /** Offset, inside a printed item, of what follows its last gap. */
  function ItemMoreAt(m: Items): nat
    requires m.Item?
  {
    |PrintGap(m.before)| + |Print(m.value)| + |PrintGap(m.after)|
  }

  /** The pieces of a printed item. */
  lemma ItemText(t: string, i: nat, m: Items)
    requires m.Item? && Reads(t, i, PrintItems(m))
    ensures Reads(t, i, PrintGap(m.before))
    ensures Reads(t, i + |PrintGap(m.before)|, Print(m.value))
    ensures Reads(t, i + |PrintGap(m.before)| + |Print(m.value)|, PrintGap(m.after))
    ensures Reads(t, i + ItemMoreAt(m), PrintMoreItems(m.more))
    ensures |PrintItems(m)| == ItemMoreAt(m) + |PrintMoreItems(m.more)|
  {
    hide PrintGap, Print;
    var more := PrintMoreItems(m.more);
    ReadsSplit(t, i, PrintGap(m.before), Print(m.value) + (PrintGap(m.after) + more));
    ReadsSplit(t, i + |PrintGap(m.before)|, Print(m.value), PrintGap(m.after) + more);
    ReadsSplit(t, i + |PrintGap(m.before)| + |Print(m.value)|, PrintGap(m.after), more);
  }

  lemma ItemLength(m: Items)
    requires m.Item?
    ensures |PrintItems(m)| == ItemMoreAt(m) + |PrintMoreItems(m.more)|
  {
    hide Print, PrintGap;
  }

  /** The state at the closing bracket of an array. */
  function ItemsEnd(s: State, m: Items): (e: State)
    requires s.stack != [] && Last(s.stack).Arr?
    ensures |e.stack| == |s.stack| && Pop(e.stack) == Pop(s.stack) && e.i == s.i + |PrintItems(m)|
    ensures Last(e.stack).Arr? && (e.phase == InArray || e.phase == FindComma)
    decreases m
  {
    match m
    case NoItem(gap) => State(InArray, s.stack, s.i + |PrintGap(gap)|)
    case Item(_, _, _, more) =>
      ItemLength(m);
      match more
      case EndItems => State(FindComma, Bump(s.stack), s.i + ItemMoreAt(m))
      case NextItem(rest) => ItemsEnd(State(InArray, Bump(s.stack), s.i + ItemMoreAt(m) + 1), rest)
  }

  /** Slots for an item itself. */
  function ItemHeadSlots(m: Items): nat
    requires m.Item?
  {
    Max(GapSlots(m.before), Max(Slots(m.value), GapSlots(m.after)))
  }

  /** The path of an item is that of its array and its index. */
  lemma ItemPath(t: string, depth: nat, s: State, k: nat)
    requires Inv(t, depth, s) && s.phase == InArray && Last(s.stack) == Arr(k - 1)
    ensures AllOpen(t, Pop(s.stack)) && AllOpen(t, Bump(s.stack)) && Last(Bump(s.stack)) == Arr(k)
    ensures PathOf(t, Bump(s.stack)) == PathOf(t, Pop(s.stack)) + [Index(k)]
  {
    EnteredOpen(t, depth, s);
  }

  /** One item, up to the comma or bracket after it. */
  lemma {:induction false} ItemRun(t: string, depth: nat, s: State, m: Items, k: nat)
    requires m.Item?
    requires Inv(t, depth, s) && s.phase == InArray && Last(s.stack) == Arr(k - 1)
    requires ValidItems(m) && Reads(t, s.i, PrintItems(m)) && Delimits(t, s.i + ItemMoreAt(m))
    ensures AllOpen(t, Pop(s.stack))
    ensures Arrives(t, depth, s, |s.stack| + ItemHeadSlots(m) <= depth,
                    Leaves(m.value, PathOf(t, Pop(s.stack)) + [Index(k)]),
                    State(FindComma, Bump(s.stack), s.i + ItemMoreAt(m)))
    decreases m, 0
  {
    hide Run, Completes, StepAny, Inv, IsOpen, Print, PrintGap, PrintItems, Leaves, PathOf, Slots, GapSlots,
      AllOpen, Reads, Delimits, ValidGap, ValidJson, Bump;
    StackNotEmpty(t, depth, s);
    ItemText(t, s.i, m);
    ItemPath(t, depth, s, k);
    var r1 := |s.stack| + GapSlots(m.before) <= depth;
    var r2 := |s.stack| + Max(Slots(m.value), GapSlots(m.after)) <= depth;
    var a := Skip(s, |PrintGap(m.before)|);
    GapRun(t, depth, s, m.before);
    if r1 { ValueAndGapRun(t, depth, a, m.value, m.after); }
    SilentlyThen(t, depth, s, r1, a, r2, Leaves(m.value, PathOf(t, Pop(s.stack)) + [Index(k)]),
                 State(FindComma, Bump(s.stack), s.i + ItemMoreAt(m)));
  }

  /** A comma and the items after it; s is any earlier state of the same array. */
  lemma {:induction false} NextItemRun(t: string, depth: nat, s: State, b: State, m: Items, k: nat)
    requires Inv(t, depth, b) && b.phase == FindComma && |b.stack| == |s.stack| > 0 && Pop(b.stack) == Pop(s.stack)
    requires k > 0 && Last(b.stack) == Arr(k - 1) && ValidItems(m) && Reads(t, b.i, "," + PrintItems(m))
    requires b.i + 1 + |PrintItems(m)| < |t| && t[b.i + 1 + |PrintItems(m)|] == ']'
    ensures AllOpen(t, Pop(s.stack))
    ensures Arrives(t, depth, b, |s.stack| + ItemSlots(m) <= depth, ItemLeaves(m, PathOf(t, Pop(s.stack)), k),
                    ItemsEnd(State(InArray, b.stack, b.i + 1), m))
    decreases m, 3
  {
    hide Run, Completes, StepAny, Inv, IsOpen, AllOpen, PrintItems, Leaves, PathOf, ItemSlots, ItemLeaves, ItemsEnd;
    ReadsSplit(t, b.i, ",", PrintItems(m));
    assert t[b.i + 0] == ","[0];
    var c := State(InArray, b.stack, b.i + 1);
    CommaRun(t, depth, b);
    ItemsRun(t, depth, c, m, k);
    SilentlyThen(t, depth, b, true, c, |s.stack| + ItemSlots(m) <= depth,
                 ItemLeaves(m, PathOf(t, Pop(s.stack)), k), ItemsEnd(c, m));
  }

  /** What follows an item starts with a comma or the closing bracket. */
  lemma MoreItemsDelimits(t: string, i: nat, more: MoreItems)
    requires Reads(t, i, PrintMoreItems(more))
    requires i + |PrintMoreItems(more)| < |t| && t[i + |PrintMoreItems(more)|] == ']'
    ensures Delimits(t, i)
  {
    if more.NextItem? { assert t[i + 0] == PrintMoreItems(more)[0]; }
  }

  lemma NoItemRun(t: string, depth: nat, s: State, m: Items, path: seq<PathElement>, k: nat)
    requires Inv(t, depth, s) && s.phase == InArray && m.NoItem? && ValidItems(m) && Reads(t, s.i, PrintItems(m))
    ensures s.stack != [] && Last(s.stack).Arr?
    ensures Arrives(t, depth, s, |s.stack| + ItemSlots(m) <= depth, ItemLeaves(m, path, k), ItemsEnd(s, m))
  {
    hide Run, Completes, StepAny, AllOpen, Reads, PrintGap, ValidGap;
    GapRun(t, depth, s, m.gap);
  }

  /** From '[' or a comma to the closing bracket of an array; k is the next index. */
  lemma {:induction false} ItemsRun(t: string, depth: nat, s: State, m: Items, k: nat)
    requires Inv(t, depth, s) && s.phase == InArray && Last(s.stack) == Arr(k - 1)
    requires ValidItems(m) && Reads(t, s.i, PrintItems(m))
    requires s.i + |PrintItems(m)| < |t| && t[s.i + |PrintItems(m)|] == ']'
    ensures AllOpen(t, Pop(s.stack))
    ensures Arrives(t, depth, s, |s.stack| + ItemSlots(m) <= depth,
                    ItemLeaves(m, PathOf(t, Pop(s.stack)), k), ItemsEnd(s, m))
    decreases m, 1
  {
    hide Run, Completes, StepAny, Inv, AllOpen, Reads, PrintItems, Leaves, PathOf, ValidJson, ValidGap, Bump,
      ItemsEnd, ItemLeaves, ItemSlots, ItemHeadSlots;
    StackNotEmpty(t, depth, s);
    if m.NoItem? {
      NoItemRun(t, depth, s, m, PathOf(t, Pop(s.stack)), k);
    } else {
      var path := PathOf(t, Pop(s.stack));
      UnfoldItem(s, m, path, k);
      ItemText(t, s.i, m);
      MoreItemsDelimits(t, s.i + ItemMoreAt(m), m.more);
      ItemRun(t, depth, s, m, k);
      if m.more.NextItem? {
        var b := State(FindComma, Bump(s.stack), s.i + ItemMoreAt(m));
        var room := |s.stack| + ItemHeadSlots(m) <= depth;
        var rest := m.more.items;
        if room { NextItemRun(t, depth, s, b, rest, k + 1); }
        ArrivesThen(t, depth, s, room, Leaves(m.value, path + [Index(k)]), b,
                    |s.stack| + ItemSlots(rest) <= depth, ItemLeaves(rest, path, k + 1), ItemsEnd(s, m));
      }
    }
  }

  /** One unfolding of the functions of a non-empty item list. */
  lemma UnfoldItem(s: State, m: Items, path: seq<PathElement>, k: nat)
    requires m.Item? && s.stack != [] && Last(s.stack).Arr?
    ensures match m.more
            case EndItems =>
              && ItemLeaves(m, path, k) == Leaves(m.value, path + [Index(k)])
              && ItemSlots(m) == ItemHeadSlots(m)
              && ItemsEnd(s, m) == State(FindComma, Bump(s.stack), s.i + ItemMoreAt(m))
            case NextItem(rest) =>
              && ItemLeaves(m, path, k) == Leaves(m.value, path + [Index(k)]) + ItemLeaves(rest, path, k + 1)
              && ItemSlots(m) == Max(ItemHeadSlots(m), ItemSlots(rest))
              && ItemsEnd(s, m) == ItemsEnd(State(InArray, Bump(s.stack), s.i + ItemMoreAt(m) + 1), rest)
  {
    hide Leaves, Slots, GapSlots, Print, PrintGap, PrintItems;
    var events := Leaves(m.value, path + [Index(k)]);
    assert events + [] == events;
  }

  /** The state after the last bracket of the root. */
  function RootEnd(e: State, keeps: bool): State
    requires e.stack != []
  {
    if keeps then State(ParseFinished, e.stack, e.i + 1) else State(FindComma, Pop(e.stack), e.i + 1)
  }

  /** The bracket that closes the root: a root object may keep its slot. */
  lemma RootClose(t: string, depth: nat, e: State)
    requires Inv(t, depth, e) && |e.stack| == 1 && AtClose(t, e)
    ensures Leads(t, depth, e, [], RootEnd(e, t[e.i] == '}' && e.phase == FindComma))
  {
    hide Run, Completes;
    LeadsStep(t, depth, e, RootEnd(e, t[e.i] == '}' && e.phase == FindComma));
  }

  lemma RootOpen(t: string, depth: nat, s: State, f: Frame)
    requires Live(t, depth, s) && s.phase == ParseBegin
    requires (t[s.i] == '{' && f == Obj) || (t[s.i] == '[' && f == Arr(-1))
    ensures Leads(t, depth, s, [], State(if f == Obj then InObject else InArray, [f], s.i + 1))
  {
    hide Run, Completes;
    LeadsStep(t, depth, s, State(if f == Obj then InObject else InArray, [f], s.i + 1));
  }

  /** Where the root's last bracket is, with the stack at that point. */
  function RootBracket(s: State, v: Json): (e: State)
    requires !v.Lit?
    ensures |e.stack| == 1 && e.i + 1 == s.i + |Print(v)|
  {
    match v
    case Object(m) => MembersEnd(State(InObject, [Obj], s.i + 1), m)
    case Array(m) => ItemsEnd(State(InArray, [Arr(-1)], s.i + 1), m)
  }

  predicate KeepsRoot(v: Json) {
    v.Object? && KeepsRootSlot(v.members)
  }

  /** From the root's first bracket to just after its last one. */
  lemma RootRun(t: string, depth: nat, s: State, v: Json)
    requires Inv(t, depth, s) && s.phase == ParseBegin && !v.Lit? && ValidJson(v, false) && Reads(t, s.i, Print(v))
    ensures Arrives(t, depth, s, Slots(v) <= depth, Leaves(v, []), RootEnd(RootBracket(s, v), KeepsRoot(v)))
  {
    hide Run, Completes, StepAny, Inv, Reads, PrintMembers, PrintItems, MembersEnd, ItemsEnd, MemberLeaves, ItemLeaves,
      MemberSlots, ItemSlots, KeepsRootSlot, ValidMembers, ValidItems;
    var e := RootBracket(s, v);
    var r := RootEnd(e, KeepsRoot(v));
    match v
    case Object(m) =>
      ReadsEnclosed(t, s.i, "{", PrintMembers(m), "}");
      var a := State(InObject, [Obj], s.i + 1);
      RootOpen(t, depth, s, Obj);
      MembersRun(t, depth, a, m);
      assert PathOf(t, Pop(a.stack)) == [];
      RootJoin(t, depth, s, a, Slots(v) <= depth, Leaves(v, []), e, KeepsRoot(v));
    case Array(m) =>
      ReadsEnclosed(t, s.i, "[", PrintItems(m), "]");
      var a := State(InArray, [Arr(-1)], s.i + 1);
      RootOpen(t, depth, s, Arr(-1));
      ItemsRun(t, depth, a, m, 0);
      assert PathOf(t, Pop(a.stack)) == [];
      RootJoin(t, depth, s, a, Slots(v) <= depth, Leaves(v, []), e, false);
  }

  lemma RootJoin(t: string, depth: nat, s: State, a: State, room: bool, events: seq<Event>, e: State, keeps: bool)
    requires Leads(t, depth, s, [], a) && Arrives(t, depth, a, room, events, e)
    requires |e.stack| == 1 && AtClose(t, e) && keeps == (t[e.i] == '}' && e.phase == FindComma)
    ensures Arrives(t, depth, s, room, events, RootEnd(e, keeps))
  {
    hide Run, Completes, StepAny, Inv;
    if room { RootClose(t, depth, e); }
    SilentlyThen(t, depth, s, true, a, room, events, e);
    ArrivesThen(t, depth, s, room, events, e, true, [], RootEnd(e, keeps));
    assert events + [] == events;
  }

  lemma StartInv(t: string, depth: nat)
    requires 1 <= depth
    ensures Inv(t, depth, START)
  {
  }

  /** At the end of the text, or a comment before it: success, or no room for the comment. */
  lemma LastComment(t: string, depth: nat, s: State, end: string)
    requires Inv(t, depth, s) && TakesGaps(s.phase) && ValidEnd(end) && Reads(t, s.i, end) && s.i + |end| == |t|
    ensures end == "" || |s.stack| < depth ==> Run(t, depth, s) == Result([], Success)
    ensures (end == "" || |s.stack| < depth) && Past(s) ==> Completes(t, depth, s)
    ensures end != "" && |s.stack| == depth ==> NoRoom(t, depth, s)
  {
    if end != "" {
      assert t[s.i + 0] == end[..2][0] && t[s.i + 1] == end[..2][1];
      if |s.stack| < depth {
        var c := State(InComment, s.stack + [Cmt(s.phase)], s.i + 2);
        assert StepAny(t, depth, s) == Next(c);
        forall k | c.i <= k < |t| ensures !IsEol(t[k]) { assert t[s.i + (k - s.i)] == end[2..][k - c.i]; }
        CommentToEnd(t, depth, c);
      }
    }
  }

  lemma {:induction false} CommentToEnd(t: string, depth: nat, s: State)
    requires Inv(t, depth, s) && s.phase == InComment && s.i <= |t|
    requires forall k :: s.i <= k < |t| ==> !IsEol(t[k])
    ensures Run(t, depth, s) == Result([], Success) && (Past(s) ==> Completes(t, depth, s))
    decreases |t| - s.i
  {
    if s.i < |t| {
      assert !IsEol(t[s.i]) && StepAny(t, depth, s) == Next(Skip(s, 1));
      CommentToEnd(t, depth, Skip(s, 1));
    }
  }

  /** A run that arrives where only a last comment may follow. */
  lemma EndsThere(t: string, depth: nat, s: State, room: bool, events: seq<Event>, e: State, end: string)
    requires Arrives(t, depth, s, room, events, e)
    requires TakesGaps(e.phase) && ValidEnd(end) && Reads(t, e.i, end) && e.i + |end| == |t|
    ensures var fits := room && (end == "" || |e.stack| < depth);
      && (fits ==> Run(t, depth, s) == Result(events, Success) && (Past(e) ==> Completes(t, depth, s)))
      && (!fits ==> Run(t, depth, s).outcome == NoMemory)
  {
    hide Run, Completes, StepAny, Shape, Reads, ValidEnd;
    assert events + [] == events;
    if room { LastComment(t, depth, e, end); }
  }

  lemma DocumentText(t: string, d: Document)
    requires Reads(t, 0, PrintDocument(d))
    ensures var i := |PrintGap(d.lead)|; var j := i + |Print(d.root)|;
      && Reads(t, 0, PrintGap(d.lead)) && Reads(t, i, Print(d.root)) && Reads(t, j, PrintGap(d.trail))
      && Reads(t, j + |PrintGap(d.trail)|, d.end) && |PrintDocument(d)| == j + |PrintGap(d.trail)| + |d.end|
  {
    hide Print, PrintGap;
    var i, w := |PrintGap(d.lead)|, PrintGap(d.trail) + d.end;
    ReadsSplit(t, 0, PrintGap(d.lead), Print(d.root) + w);
    ReadsSplit(t, i, Print(d.root), w);
    ReadsSplit(t, i + |Print(d.root)|, PrintGap(d.trail), d.end);
  }

  /** The state behind the root. */
  function AfterRoot(d: Document): (b: State)
    requires !d.root.Lit?
    ensures b.i == |PrintGap(d.lead)| + |Print(d.root)| && BehindRoot(b.phase, b.stack)
    ensures |b.stack| == if KeepsRoot(d.root) then 1 else 0
  {
    hide Print, PrintGap, KeepsRoot;
    RootEnd(RootBracket(Skip(START, |PrintGap(d.lead)|), d.root), KeepsRoot(d.root))
  }

  /** From the start to behind the root. */
  lemma RootPart(t: string, depth: nat, d: Document)
    requires 1 <= depth && ValidDocument(d) && Reads(t, 0, PrintDocument(d))
    ensures Arrives(t, depth, START, 1 + GapSlots(d.lead) <= depth && Slots(d.root) <= depth, Leaves(d.root, []),
                    AfterRoot(d))
  {
    hide Run, Completes, StepAny, Inv, Print, PrintGap, PrintDocument, ValidJson, ValidGap, GapSlots, Slots, Leaves,
      KeepsRoot, Reads, RootBracket, RootEnd;
    StartInv(t, depth);
    DocumentText(t, d);
    var a := Skip(START, |PrintGap(d.lead)|);
    var r := 1 + GapSlots(d.lead) <= depth;
    GapRun(t, depth, START, d.lead);
    if r { RootRun(t, depth, a, d.root); }
    SilentlyThen(t, depth, START, r, a, Slots(d.root) <= depth, Leaves(d.root, []), AfterRoot(d));
  }

  /** From the start to the end of the document, but for a last comment. */
  lemma DocumentPart(t: string, depth: nat, d: Document)
    requires 1 <= depth && ValidDocument(d) && Reads(t, 0, PrintDocument(d))
    ensures Arrives(t, depth, START, DocumentSlots(d.(end := "")) <= depth, Leaves(d.root, []),
                    Skip(AfterRoot(d), |PrintGap(d.trail)|))
  {
    hide Run, Completes, StepAny, Inv, Print, PrintGap, PrintDocument, ValidJson, ValidGap, GapSlots, Slots, Leaves,
      KeepsRoot, Reads, AfterRoot, DocumentSlots;
    DocumentText(t, d);
    var b := AfterRoot(d);
    var r, q := 1 + GapSlots(d.lead) <= depth && Slots(d.root) <= depth, |b.stack| + GapSlots(d.trail) <= depth;
    RootPart(t, depth, d);
    SameFiller(d.trail, b.phase);
    if r { GapRun(t, depth, b, d.trail); }
    var events := Leaves(d.root, []);
    ArrivesThen(t, depth, START, r, events, b, q, [], Skip(b, |PrintGap(d.trail)|));
    assert events + [] == events;
    SlotsNeeded(d.(end := ""), depth);
  }

  /** Main result: any layout of any document with a container as root, parsed as a C
      string with enough path slots, reports exactly its leaves, depth first, each with
      its full path, and succeeds; with fewer slots it fails for want of memory. */
  lemma ParsePrinted(t: string, depth: nat, d: Document)
    requires 1 <= depth && ValidDocument(d) && t == PrintDocument(d) && IsCString(t)
    ensures Inv(t, depth, START)
    ensures DocumentSlots(d) <= depth ==>
      Run(t, depth, START) == Result(Leaves(d.root, []), Success) && Completes(t, depth, START)
    ensures DocumentSlots(d) > depth ==> Run(t, depth, START).outcome == NoMemory
  {
    hide Run, Completes, StepAny, Inv, Print, PrintGap, PrintDocument, ValidJson, ValidGap, GapSlots, Slots, Leaves,
      KeepsRootSlot, Reads, IsCString, ValidEnd, AfterRoot, DocumentSlots;
    StartInv(t, depth);
    ReadsItself(t, 0, |t|);
    assert t[0..|t|] == t;
    DocumentText(t, d);
    DocumentPart(t, depth, d);
    var c := Skip(AfterRoot(d), |PrintGap(d.trail)|);
    SlotsNeeded(d.(end := ""), depth);
    EndsThere(t, depth, START, DocumentSlots(d.(end := "")) <= depth, Leaves(d.root, []), c, d.end);
    SlotsNeeded(d, depth);
  }

  /** Behind the root, both phases take the same gaps. */
  lemma {:induction false} SameFiller(g: Gap, p: Phase)
    requires ValidGap(g, FindComma) && (p == ParseFinished || p == FindComma)
    ensures ValidGap(g, p)
  {
    if !g.NoGap? { SameFiller(g.rest, p); }
  }

  lemma SlotsNeeded(d: Document, depth: nat)
    requires !d.root.Lit?
    ensures DocumentSlots(d) <= depth <==>
      1 + GapSlots(d.lead) <= depth && Slots(d.root) <= depth
      && (if KeepsRoot(d.root) then 1 else 0) + GapSlots(d.trail) <= depth
      && (d.end == "" || (if KeepsRoot(d.root) then 1 else 0) < depth)
  {
    hide GapSlots, Slots, KeepsRootSlot;
  }
}
