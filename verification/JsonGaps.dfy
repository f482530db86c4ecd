/** Runs of the parser over the layout between tokens. */
module JsonGaps {
  import opened CText
  import opened JsonMachine
  import opened JsonDocument

  /** Behind the root, where only gaps may follow. */
  predicate BehindRoot(p: Phase, stack: seq<Frame>) {
    p == ParseFinished || (p == FindComma && stack == [])
  }

  predicate Past(s: State) {
    || BehindRoot(s.phase, s.stack)
    || (s.phase == InComment && s.stack != [] && Last(s.stack).Cmt? && BehindRoot(Last(s.stack).back, Pop(s.stack)))
  }

  /** The run from s reads the rest of the text and ends behind the root. */
  ghost predicate Completes(t: string, depth: nat, s: State)
    decreases Measure(t, s).0, Measure(t, s).1
  {
    && Inv(t, depth, s)
    && if s.i >= |t| then s.i == |t| && Past(s)
       else
         match StepAny(t, depth, s)
         case Next(s') => Completes(t, depth, s')
         case Emit(_, s') => Completes(t, depth, s')
         case Halt(_) => false
  }

  /** The run from s succeeds to the run from s' after the given events. */
  ghost predicate Leads(t: string, depth: nat, s: State, events: seq<Event>, s': State) {
    && Inv(t, depth, s) && Inv(t, depth, s') && Run(t, depth, s) == Prepend(events, Run(t, depth, s'))
    && (Completes(t, depth, s') ==> Completes(t, depth, s))
  }

  /** The run from s stops for want of a path slot. */
  ghost predicate NoRoom(t: string, depth: nat, s: State) {
    Inv(t, depth, s) && Run(t, depth, s).outcome == NoMemory
  }

  lemma LeadsTrans(t: string, depth: nat, a: State, e: seq<Event>, b: State, f: seq<Event>, c: State)
    requires Leads(t, depth, a, e, b) && Leads(t, depth, b, f, c)
    ensures Leads(t, depth, a, e + f, c)
  {
    hide Run, Completes;
    assert (e + f) + Run(t, depth, c).events == e + (f + Run(t, depth, c).events);
  }

  lemma LeadsInv(t: string, depth: nat, a: State, e: seq<Event>, b: State)
    requires Leads(t, depth, a, e, b)
    ensures Inv(t, depth, a) && Inv(t, depth, b)
  {
    hide Inv, Run, Completes;
  }

  lemma LeadsNoRoom(t: string, depth: nat, a: State, e: seq<Event>, b: State)
    requires Leads(t, depth, a, e, b) && NoRoom(t, depth, b)
    ensures NoRoom(t, depth, a)
  {
    hide Run, Completes;
  }

  lemma LeadsStep(t: string, depth: nat, s: State, s': State)
    requires Live(t, depth, s) && StepAny(t, depth, s) == Next(s')
    ensures Leads(t, depth, s, [], s')
  {
    assert [] + Run(t, depth, s').events == Run(t, depth, s').events;
  }

  lemma LeadsNowhere(t: string, depth: nat, s: State)
    requires Inv(t, depth, s)
    ensures Leads(t, depth, s, [], s)
  {
    hide Run, Completes;
    assert [] + Run(t, depth, s).events == Run(t, depth, s).events;
  }

  /** The body of a comment, up to the end of its line, then its slot is given back. */
  lemma {:induction false} CommentBody(t: string, depth: nat, s: State, n: nat)
    requires Inv(t, depth, s) && s.phase == InComment && s.i + n < |t|
    requires forall k :: s.i <= k < s.i + n ==> !IsEol(t[k])
    requires IsEol(t[s.i + n])
    ensures Leads(t, depth, s, [], State(Last(s.stack).back, Pop(s.stack), s.i + n + 1))
    decreases n
  {
    hide Run, Completes;
    if n == 0 {
      LeadsStep(t, depth, s, State(Last(s.stack).back, Pop(s.stack), s.i + 1));
    } else {
      assert !IsEol(t[s.i]);
      LeadsStep(t, depth, s, Skip(s, 1));
      CommentBody(t, depth, Skip(s, 1), n - 1);
      LeadsTrans(t, depth, s, [], Skip(s, 1), [], State(Last(s.stack).back, Pop(s.stack), s.i + n + 1));
    }
  }

  /** A comment takes one slot and gives it back, leaving all others as they were. */
  lemma CommentRun(t: string, depth: nat, s: State, body: string, eol: char)
    requires Inv(t, depth, s) && TakesGaps(s.phase)
    requires Reads(t, s.i, "//" + (body + [eol])) && IsEol(eol)
    requires NoEol(body)
    ensures |s.stack| < depth ==> Leads(t, depth, s, [], Skip(s, |body| + 3))
    ensures |s.stack| == depth ==> NoRoom(t, depth, s)
  {
    hide Reads, IsEol, StepAny, Inv, Run, Completes;
    CommentText(t, s.i, body, eol);
    CommentOpens(t, depth, s);
    if |s.stack| < depth {
      var c := State(InComment, s.stack + [Cmt(s.phase)], s.i + 2);
      assert Pop(c.stack) == s.stack;
      LeadsStep(t, depth, s, c);
      CommentBody(t, depth, c, |body|);
      LeadsTrans(t, depth, s, [], c, [], Skip(s, |body| + 3));
    }
  }

  lemma CommentOpens(t: string, depth: nat, s: State)
    requires Inv(t, depth, s) && TakesGaps(s.phase) && s.i + 1 < |t| && t[s.i] == '/' && t[s.i + 1] == '/'
    ensures |s.stack| <= depth
    ensures |s.stack| < depth ==>
      var c := State(InComment, s.stack + [Cmt(s.phase)], s.i + 2);
      StepAny(t, depth, s) == Next(c) && Inv(t, depth, c)
    ensures |s.stack| == depth ==> NoRoom(t, depth, s)
  {
    hide Shape, IsOpen, AllOpen, Completes, StepValue, StepName, StepComment;
  }

  lemma CommentText(t: string, i: nat, body: string, eol: char)
    requires Reads(t, i, "//" + (body + [eol])) && forall k :: 0 <= k < |body| ==> !IsEol(body[k])
    ensures i + 2 + |body| < |t| && t[i] == '/' && t[i + 1] == '/' && t[i + 2 + |body|] == eol
    ensures forall k :: i + 2 <= k < i + 2 + |body| ==> !IsEol(t[k])
  {
    ReadsSplit(t, i, "//", body + [eol]);
    ReadsSplit(t, i + 2, body, [eol]);
    assert t[i + 0] == "//"[0] && t[i + 1] == "//"[1] && t[i + 2 + |body| + 0] == [eol][0];
    forall k | i + 2 <= k < i + 2 + |body| ensures !IsEol(t[k]) {
      assert t[i + 2 + (k - i - 2)] == body[k - i - 2];
    }
  }

  lemma BlankStep(t: string, depth: nat, s: State)
    requires Live(t, depth, s) && TakesGaps(s.phase) && IsFiller(s.phase, t[s.i])
    ensures StepAny(t, depth, s) == Next(Skip(s, 1))
  {
    hide Shape, IsOpen, AllOpen, Inv, StepValue, StepName, StepComment;
  }

  lemma BlankRun(t: string, depth: nat, s: State)
    requires Live(t, depth, s) && TakesGaps(s.phase) && IsFiller(s.phase, t[s.i])
    ensures Leads(t, depth, s, [], Skip(s, 1))
  {
    hide Run, Completes, StepAny, Inv;
    BlankStep(t, depth, s);
    LeadsStep(t, depth, s, Skip(s, 1));
  }

  /** The run from s reaches s' after the given events if there is room; else it
      stops for want of a path slot. */
  ghost predicate Arrives(t: string, depth: nat, s: State, room: bool, events: seq<Event>, s': State) {
    && Inv(t, depth, s)
    && (room ==> Leads(t, depth, s, events, s'))
    && (!room ==> NoRoom(t, depth, s))
  }

  lemma ArrivesThen(t: string, depth: nat, a: State, r: bool, e: seq<Event>, b: State,
                    q: bool, f: seq<Event>, c: State)
    requires Arrives(t, depth, a, r, e, b) && (r ==> Arrives(t, depth, b, q, f, c))
    ensures Arrives(t, depth, a, r && q, e + f, c)
  {
    hide Run, Completes;
    if r && q {
      LeadsTrans(t, depth, a, e, b, f, c);
    } else if r {
      LeadsNoRoom(t, depth, a, e, b);
    }
  }

  lemma SilentlyThen(t: string, depth: nat, a: State, r: bool, b: State, q: bool, f: seq<Event>, c: State)
    requires Arrives(t, depth, a, r, [], b) && (r ==> Arrives(t, depth, b, q, f, c))
    ensures Arrives(t, depth, a, r && q, f, c)
  {
    hide Run, Completes;
    ArrivesThen(t, depth, a, r, [], b, q, f, c);
    assert [] + f == f;
  }

  /** A gap changes nothing but the position. */
  lemma {:induction false} GapRun(t: string, depth: nat, s: State, g: Gap)
    requires Inv(t, depth, s) && TakesGaps(s.phase) && ValidGap(g, s.phase) && Reads(t, s.i, PrintGap(g))
    ensures Arrives(t, depth, s, |s.stack| + GapSlots(g) <= depth, [], Skip(s, |PrintGap(g)|))
    decreases g
  {
    hide Run, Completes, StepAny, Shape;
    match g
    case NoGap => LeadsNowhere(t, depth, s);
    case Blank(c, rest) =>
      ReadsSplit(t, s.i, [c], PrintGap(rest));
      assert t[s.i + 0] == [c][0];
      BlankRun(t, depth, s);
      GapRun(t, depth, Skip(s, 1), rest);
      SilentlyThen(t, depth, s, true, Skip(s, 1), |s.stack| + GapSlots(rest) <= depth, [], Skip(s, |PrintGap(g)|));
    case Comment(body, eol, rest) =>
      var head := "//" + (body + [eol]);
      assert PrintGap(g) == head + PrintGap(rest);
      ReadsSplit(t, s.i, head, PrintGap(rest));
      CommentRun(t, depth, s, body, eol);
      if |s.stack| < depth {
        GapRun(t, depth, Skip(s, |head|), rest);
        SilentlyThen(t, depth, s, true, Skip(s, |head|), |s.stack| + GapSlots(rest) <= depth, [],
                     Skip(s, |PrintGap(g)|));
      }
  }
}
