/** The request line between the control client and the supervisor. */
module ControlRequest {
  import opened CText

  const REQUEST_SIZE := 1024

  predicate IsSpace(c: char) {
    c == ' ' || c == '\t'
  }

  /** The request up to its first line end. */
  function Line(s: string): (r: string)
    ensures |r| <= |s| && r == s[..|r|] && (|r| < |s| ==> s[|r|] == '\n') && forall k :: 0 <= k < |r| ==> r[k] != '\n'
  {
    if s == "" || s[0] == '\n' then "" else [s[0]] + Line(s[1..])
  }

  function SkipBlanks(s: string): string {
    if s == "" || !IsSpace(s[0]) then s else SkipBlanks(s[1..])
  }

  /** The bytes before the first blank. */
  function Word(s: string): (w: string)
    ensures |w| <= |s|
    ensures w == s[..|w|]
    ensures (|w| < |s| ==> IsSpace(s[|w|]))
    ensures forall k :: 0 <= k < |w| ==> !IsSpace(w[k])
  {
    if s == "" || IsSpace(s[0]) then "" else [s[0]] + Word(s[1..])
  }

  predicate IsTrailing(c: char) {
    IsSpace(c) || c == '\r'
  }

  function TrimEnd(s: string): string
    decreases |s|
  {
    if s == "" || !IsTrailing(Last(s)) then s else TrimEnd(Pop(s))
  }

  /** The command and the application name of a request. */
  function Tokens(request: string): (string, string) {
    var l := SkipBlanks(Line(request));
    (Word(l), TrimEnd(SkipBlanks(l[|Word(l)|..])))
  }

  /** What the client writes: nothing when it would not fit its buffer. */
  function Printed(command: string, name: Option<string>): Option<string> {
    var text := command + (if name.Some? then " " + name.value else "") + "\n";
    if |text| >= REQUEST_SIZE then None else Some(text)
  }

  /** A command name: at least one byte, no blank or line end. */
  ghost predicate IsCommand(c: string) {
    c != "" && forall k :: 0 <= k < |c| ==> !IsSpace(c[k]) && c[k] != '\n'
  }

  /** The line goes on behind bytes that hold no line end. */
  lemma {:induction false} LineBehind(s: string, rest: string)
    requires Without(s, '\n')
    ensures Line(s + rest) == s + Line(rest)
    decreases |s|
  {
    if s == "" {
      assert s + rest == rest && s + Line(rest) == Line(rest);
    } else {
      assert (s + rest)[1..] == s[1..] + rest;
      LineBehind(s[1..], rest);
      assert [s[0]] + (s[1..] + Line(rest)) == s + Line(rest);
    }
  }

  /** What follows a line end does not belong to the line. */
  lemma {:induction false} LineBefore(s: string, rest: string)
    requires '\n' in s
    ensures Line(s + rest) == Line(s)
    decreases |s|
  {
    if s[0] != '\n' {
      assert (s + rest)[1..] == s[1..] + rest;
      LineBefore(s[1..], rest);
    }
  }

  lemma {:induction false} WordOf(w: string, rest: string)
    requires forall k :: 0 <= k < |w| ==> !IsSpace(w[k])
    requires rest == "" || IsSpace(rest[0])
    ensures Word(w + rest) == w
    decreases |w|
  {
    if w == "" {
      assert w + rest == rest;
    } else {
      assert (w + rest)[1..] == w[1..] + rest;
      WordOf(w[1..], rest);
    }
  }

  /** Names the tokeniser gives back: nothing to skip before, nothing to trim behind. */
  predicate Survives(name: string) {
    name == "" || (!IsSpace(name[0]) && !IsTrailing(Last(name)))
  }

  lemma {:induction false} SkipShortens(s: string)
    ensures if s != "" && IsSpace(s[0]) then |SkipBlanks(s)| < |s| else SkipBlanks(s) == s
    decreases |s|
  {
    if s != "" && IsSpace(s[0]) { SkipShortens(s[1..]); }
  }

  lemma {:induction false} TrimShortens(s: string)
    ensures if s != "" && IsTrailing(Last(s)) then |TrimEnd(s)| < |s| else TrimEnd(s) == s
    decreases |s|
  {
    if s != "" && IsTrailing(Last(s)) { TrimShortens(Pop(s)); }
  }

  lemma {:induction false} SkipKeeps(s: string)
    requires Without(s, '\n')
    ensures Without(SkipBlanks(s), '\n')
    decreases |s|
  {
    if s != "" && IsSpace(s[0]) { SkipKeeps(s[1..]); }
  }

  lemma {:induction false} TrimKeeps(s: string)
    requires Without(s, '\n')
    ensures Without(TrimEnd(s), '\n')
    decreases |s|
  {
    if s != "" && IsTrailing(Last(s)) { TrimKeeps(Pop(s)); }
  }

  /** The tokeniser undoes the printer: the command always comes back. Of the name comes
      back its first line without outer blanks, which is the whole name exactly when it
      has no line end, no blank before and no blank or carriage return behind. */
  lemma PrintedTokens(command: string, name: string)
    requires IsCommand(command) && Printed(command, Some(name)).Some?
    ensures Tokens(Printed(command, Some(name)).value) == (command, TrimEnd(SkipBlanks(Line(name))))
    ensures Tokens(Printed(command, Some(name)).value) == (command, name) <==> Survives(name) && Without(name, '\n')
  {
    hide Line, Word, SkipBlanks, TrimEnd;
    var first := Line(name);
    PrintedLine(command, name);
    var l := command + (" " + first);
    assert l[|command|..] == " " + first;
    SkipShortens(l);
    WordOf(command, " " + first);
    SkipOne(first);
    SkipShortens(first);
    TrimShortens(SkipBlanks(first));
    SkipKeeps(first);
    TrimKeeps(SkipBlanks(first));
    if Without(name, '\n') { WholeLine(name); }
  }

  lemma PrintedLine(command: string, name: string)
    requires IsCommand(command) && Printed(command, Some(name)).Some?
    ensures Line(Printed(command, Some(name)).value) == command + (" " + Line(name))
  {
    hide Line;
    var lead := command + " ";
    assert Printed(command, Some(name)).value == lead + (name + "\n");
    LineBehind(lead, name + "\n");
    if '\n' in name {
      LineBefore(name, "\n");
    } else {
      WholeLine(name);
      LineBehind(name, "\n");
      assert Line("\n") == "" by { NoLine(); }
    }
  }

  lemma NoLine()
    ensures Line("\n") == "" && Line("") == ""
  {
  }

  lemma WholeLine(s: string)
    requires Without(s, '\n')
    ensures Line(s) == s
  {
    hide Line;
    LineBehind(s, "");
    NoLine();
    assert s + "" == s;
  }

  lemma SkipOne(s: string)
    ensures SkipBlanks(" " + s) == SkipBlanks(s)
  {
    assert (" " + s)[1..] == s;
  }

  /** A command printed without a name has none. */
  lemma PrintedCommand(command: string)
    requires IsCommand(command) && Printed(command, None).Some?
    ensures Tokens(Printed(command, None).value) == (command, "")
  {
    hide Line, Word;
    assert command + "" == command;
    LineBehind(command, "\n");
    NoLine();
    WordOf(command, "");
    assert command[|command|..] == "";
  }

  /** What the reading loop collects: it stops after a read that holds a line end, at the
      end of the data, and when its buffer is full. */
  function Collected(got: string, chunks: seq<string>): string
    decreases |chunks|
  {
    if chunks == [] || |got| >= REQUEST_SIZE - 1 then got
    else
      var c := if |chunks[0]| <= REQUEST_SIZE - 1 - |got| then chunks[0] else chunks[0][..REQUEST_SIZE - 1 - |got|];
      if '\n' in c then got + c else Collected(got + c, chunks[1..])
  }

  lemma NoLineEnd(text: string, p: nat)
    requires text != "" && Without(Pop(text), '\n') && p < |text| - 1
    ensures text[p] != '\n'
  {
    assert Pop(text)[p] != '\n';
  }

  /** A printed request is collected whole, however it arrives. */
  lemma {:induction false} CollectedWhole(got: string, chunks: seq<string>, text: string)
    requires got + Concat(chunks) == text && text != "" && |text| < 1024
    requires Last(text) == '\n' && Without(Pop(text), '\n')
    ensures Collected(got, chunks) == text
    decreases |chunks|
  {
    if chunks == [] {
      assert got + "" == got;
    } else if |got| >= REQUEST_SIZE - 1 {
      assert |got| <= |text|;
      assert text[..|got|] == got;
    } else {
      var c := chunks[0];
      assert chunks == [c] + chunks[1..];
      ConcatFirst(c, chunks[1..]);
      assert got + c + Concat(chunks[1..]) == text;
      assert text[..|got + c|] == got + c;
      if '\n' in c {
        var k :| 0 <= k < |c| && c[k] == '\n';
        assert text[|got| + k] == c[k];
        if |got| + k < |text| - 1 {
          NoLineEnd(text, |got| + k);
          assert false;
        }
      } else {
        CollectedWhole(got + c, chunks[1..], text);
      }
    }
  }

  /** What can be kept of a request. */
  function Kept(text: string): string {
    if |text| <= 1023 then text else text[..1023]
  }

  /** The next read takes what still fits. */
  lemma NextChunk(got: string, chunks: seq<string>)
    requires |got| < 1023 && chunks != []
    ensures var room := 1023 - |got|; var c := if |chunks[0]| <= room then chunks[0] else chunks[0][..room];
      var all := got + Concat(chunks);
      && got + c <= Kept(all) && (|got + c| < 1023 ==> all == got + c + Concat(chunks[1..]))
      && (|got + c| == 1023 ==> got + c == Kept(all))
  {
    hide Concat;
    var room := 1023 - |got|;
    var c := if |chunks[0]| <= room then chunks[0] else chunks[0][..room];
    assert chunks == [chunks[0]] + chunks[1..];
    ConcatFirst(chunks[0], chunks[1..]);
    assert got + Concat(chunks) == got + c + (chunks[0][|c|..] + Concat(chunks[1..]));
  }

  /** Whatever a client sends, in whatever pieces, at most 1023 bytes are collected, and
      their first line is that of the first 1023 bytes sent. */
  lemma {:induction false} CollectedFirst(got: string, chunks: seq<string>)
    requires |got| <= 1023 && Without(got, '\n')
    ensures Collected(got, chunks) <= Kept(got + Concat(chunks))
    ensures Line(Collected(got, chunks)) == Line(Kept(got + Concat(chunks)))
    decreases |chunks|
  {
    hide Line;
    var all := got + Concat(chunks);
    if chunks == [] {
      assert all == got;
    } else if |got| == 1023 {
      assert all[..1023] == got;
    } else {
      NextChunk(got, chunks);
      hide Concat;
      var c := if |chunks[0]| <= 1023 - |got| then chunks[0] else chunks[0][..1023 - |got|];
      if '\n' in c {
        assert (got + c)[|got|..] == c;
        LineBefore(got + c, Kept(all)[|got + c|..]);
        assert Kept(all) == got + c + Kept(all)[|got + c|..];
      } else if |got + c| == 1023 {
        assert Collected(got + c, chunks[1..]) == got + c;
      } else {
        CollectedFirst(got + c, chunks[1..]);
      }
    }
  }

  /** The tokens of a request depend on its first line only. */
  lemma ArrivedTokens(chunks: seq<string>)
    requires |Concat(chunks)| < REQUEST_SIZE && IsCString(Concat(chunks))
    ensures Tokens(Cut(Collected("", chunks))) == Tokens(Concat(chunks))
  {
    hide Line, Word, SkipBlanks, TrimEnd, Collected, Concat, Cut;
    assert "" + Concat(chunks) == Concat(chunks);
    CollectedFirst("", chunks);
    var s := Collected("", chunks);
    assert forall k :: 0 <= k < |s| ==> s[k] == Concat(chunks)[k];
  }

  /** Print, send in any pieces, collect, tokenise: command and name come back exactly
      when the name has nothing to lose. */
  lemma RequestRoundTrip(command: string, name: string, chunks: seq<string>)
    requires IsCommand(command) && IsCString(command) && IsCString(name)
    requires Printed(command, Some(name)) == Some(Concat(chunks))
    ensures Tokens(Cut(Collected("", chunks))) == (command, name) <==> Survives(name) && Without(name, '\n')
  {
    hide Tokens, Cut, Collected, Concat;
    ArrivedTokens(chunks);
    PrintedTokens(command, name);
  }

  datatype Command = List | Status | Start | Stop

  /** control_command_name */
  function CommandName(c: Command): string {
    match c
    case List => "LIST"
    case Status => "STATUS"
    case Start => "START"
    case Stop => "STOP"
  }

  function Lower(s: string): string {
    if s == "" then "" else [if 'A' <= s[0] <= 'Z' then s[0] + ' ' else s[0]] + Lower(s[1..])
  }

  /** Commands are compared without regard to case. */
  predicate SameWord(a: string, b: string) {
    Lower(a) == Lower(b)
  }

  datatype Action = MissingCommand | ListTakesNoName | UnknownCommand | Do(c: Command, name: string)

  /** The dispatch of supervisor_handle_control_request. */
  function Dispatch(command: string, name: string): Action {
    if command == "" then MissingCommand
    else if SameWord(command, "LIST") then if name != "" then ListTakesNoName else Do(List, "")
    else if SameWord(command, "STATUS") then Do(Status, name)
    else if SameWord(command, "START") then Do(Start, name)
    else if SameWord(command, "STOP") then Do(Stop, name)
    else UnknownCommand
  }

  lemma LowerLength(s: string)
    ensures |Lower(s)| == |s|
    ensures forall k :: 0 <= k < |s| ==> Lower(s)[k] == if 'A' <= s[k] <= 'Z' then s[k] + ' ' else s[k]
  {
    if s != "" { LowerLength(s[1..]); }
  }

  lemma NamesDiffer()
    ensures !SameWord("STATUS", "LIST") && !SameWord("START", "LIST") && !SameWord("START", "STATUS")
    ensures !SameWord("STOP", "LIST") && !SameWord("STOP", "STATUS") && !SameWord("STOP", "START")
  {
    LowerLength("LIST");
    LowerLength("STATUS");
    LowerLength("START");
    LowerLength("STOP");
    assert Lower("STOP")[0] != Lower("LIST")[0];
  }

  /** What the client asks for is what the server does, however the bytes arrive; LIST
      is sent without a name. */
  lemma ClientIsUnderstood(c: Command, name: Option<string>, chunks: seq<string>)
    requires name.Some? ==> c != List && Without(name.value, '\n') && IsCString(name.value) && Survives(name.value)
    requires Printed(CommandName(c), name) == Some(Concat(chunks))
    ensures var (command, app) := Tokens(Cut(Collected("", chunks)));
      Dispatch(command, app) == Do(c, if name.Some? then name.value else "")
  {
    hide Tokens, Cut, Collected, SameWord;
    var command := CommandName(c);
    assert forall k :: 0 <= k < |command| ==> !IsSpace(command[k]) && command[k] != '\n';
    ArrivedTokens(chunks);
    if name.Some? { PrintedTokens(command, name.value); } else { PrintedCommand(command); }
    NamesDiffer();
    SameAsItself("LIST");
    SameAsItself(command);
  }

  lemma SameAsItself(s: string)
    ensures SameWord(s, s)
  {
  }

  /** A C string inside an array. */
  ghost predicate StringAt(a: array<char>, off: nat, s: string)
    reads a
  {
    off + |s| < a.Length && (forall k :: 0 <= k < |s| ==> a[off + k] == s[k]) && a[off + |s|] == '\0' && IsCString(s)
  }

  /** The line end, if any, becomes the end of the string. */
  method CutLine(a: array<char>, ghost s: string)
    requires StringAt(a, 0, s)
    modifies a
    ensures StringAt(a, 0, Line(s))
  {
    var k := 0;
    while a[k] != '\n' && a[k] != '\0'
      invariant 0 <= k <= |s| && forall j :: 0 <= j < k ==> s[j] != '\n'
      decreases |s| - k
    {
      k := k + 1;
    }
    LineEnds(s, k);
    a[k] := '\0';
  }

  lemma {:induction false} LineEnds(s: string, k: nat)
    requires k <= |s| && (forall j :: 0 <= j < k ==> s[j] != '\n') && (k < |s| ==> s[k] == '\n')
    ensures Line(s) == s[..k]
    decreases k
  {
    if k > 0 {
      LineEnds(s[1..], k - 1);
      assert [s[0]] + s[1..][..k - 1] == s[..k];
    }
  }

  lemma Suffix(a: array<char>, off: nat, s: string, n: nat)
    requires StringAt(a, off, s) && n <= |s|
    ensures StringAt(a, off + n, s[n..])
  {
    forall k | 0 <= k < |s| - n ensures a[off + n + k] == s[n..][k] {
      assert a[off + (n + k)] == s[n + k];
    }
  }

  lemma ByteAt(a: array<char>, off: nat, s: string, k: nat)
    requires StringAt(a, off, s) && k < |s|
    ensures a[off + k] == s[k] != '\0'
  {
  }

  method SkipFrom(a: array<char>, off: nat, ghost s: string) returns (p: nat)
    requires StringAt(a, off, s)
    ensures off <= p && StringAt(a, p, SkipBlanks(s))
  {
    p := off;
    ghost var t := s;
    while IsSpace(a[p])
      invariant off <= p && StringAt(a, p, t) && SkipBlanks(t) == SkipBlanks(s)
      decreases |t|
    {
      Suffix(a, p, t, 1);
      p, t := p + 1, t[1..];
    }
  }

  function AfterWord(s: string): string {
    if |Word(s)| < |s| then s[|Word(s)| + 1..] else ""
  }

  method FindWordEnd(a: array<char>, off: nat, ghost s: string) returns (p: nat)
    requires StringAt(a, off, s)
    ensures p == off + |Word(s)|
  {
    p := off;
    while a[p] != '\0' && !IsSpace(a[p])
      invariant off <= p <= off + |s| && forall j :: 0 <= j < p - off ==> !IsSpace(s[j])
      decreases off + |s| - p
    {
      ByteAt(a, off, s, p - off);
      p := p + 1;
    }
    if p < off + |s| { ByteAt(a, off, s, p - off); }
    WordEnds(s, p - off);
  }

  /** The blank after the first word becomes its end; p is where the rest starts. */
  method SplitWord(a: array<char>, off: nat, ghost s: string) returns (p: nat)
    requires StringAt(a, off, s)
    modifies a
    ensures StringAt(a, off, Word(s)) && StringAt(a, p, AfterWord(s))
    ensures if |Word(s)| < |s| then off + |Word(s)| < p else off + |Word(s)| == p
  {
    hide Word;
    p := FindWordEnd(a, off, s);
    if |Word(s)| < |s| { ByteAt(a, off, s, |Word(s)|); }
    if a[p] != '\0' {
      Suffix(a, off, s, p + 1 - off);
      a[p] := '\0';
      p := p + 1;
    }
  }

  lemma {:induction false} WordEnds(s: string, k: nat)
    requires k <= |s| && (forall j :: 0 <= j < k ==> !IsSpace(s[j])) && (k < |s| ==> IsSpace(s[k]))
    ensures Word(s) == s[..k]
    decreases k
  {
    if k > 0 {
      WordEnds(s[1..], k - 1);
      assert [s[0]] + s[1..][..k - 1] == s[..k];
    }
  }

  /** Where the string ends once its trailing blanks and carriage returns are passed over. */
  method TrimmedEnd(a: array<char>, off: nat, ghost s: string) returns (end: nat)
    requires StringAt(a, off, s)
    ensures end == off + |TrimEnd(s)| && TrimEnd(s) <= s
  {
    end := off;
    while a[end] != '\0'
      invariant off <= end <= off + |s|
      decreases off + |s| - end
    {
      end := end + 1;
    }
    if end < off + |s| {
      ByteAt(a, off, s, end - off);
      assert false;
    }
    ghost var t := s;
    while end > off && IsTrailing(a[end - 1])
      invariant end == off + |t| && t <= s && TrimEnd(t) == TrimEnd(s)
      decreases end
    {
      ByteAt(a, off, s, |t| - 1);
      end, t := end - 1, Pop(t);
    }
    if t != "" { ByteAt(a, off, s, |t| - 1); }
  }

  method TrimFrom(a: array<char>, off: nat, ghost s: string)
    requires StringAt(a, off, s)
    modifies a
    ensures StringAt(a, off, TrimEnd(s))
    ensures forall k :: 0 <= k < off ==> a[k] == old(a[k])
  {
    var end := TrimmedEnd(a, off, s);
    a[end] := '\0';
  }

  /** supervisor_handle_control_request up to its dispatch: the request is cut up in
      place, and the two offsets are where its tokens now stand. */
  method Tokenise(a: array<char>, ghost request: string) returns (command: nat, name: nat)
    requires StringAt(a, 0, request)
    modifies a
    ensures StringAt(a, command, Tokens(request).0) && StringAt(a, name, Tokens(request).1)
  {
    hide Line, SkipBlanks, Word, TrimEnd;
    ghost var line := SkipBlanks(Line(request));
    CutLine(a, request);
    command := SkipFrom(a, 0, Line(request));
    name := SplitWord(a, command, line);
    AfterBlanks(line);
    NothingToTrim();
    name := SkipFrom(a, name, AfterWord(line));
    TrimFrom(a, name, SkipBlanks(AfterWord(line)));
  }

  lemma NothingToTrim()
    ensures SkipBlanks("") == "" && TrimEnd("") == ""
  {
  }

  lemma AfterBlanks(l: string)
    ensures SkipBlanks(AfterWord(l)) == SkipBlanks(l[|Word(l)|..])
  {
    if |Word(l)| < |l| { assert l[|Word(l)|..][1..] == l[|Word(l)| + 1..]; }
  }

  /** The reading loop of supervisor_accept_control_connection; chunks holds what the
      client's bytes arrive as, until it stops sending. */
  method ReadRequest(a: array<char>, chunks: seq<string>) returns (n: nat)
    requires a.Length == REQUEST_SIZE
    modifies a
    ensures n < REQUEST_SIZE && a[..n] == Collected("", chunks) && a[n] == '\0'
  {
    n := 0;
    var i := 0;
    while n < REQUEST_SIZE - 1 && i < |chunks|
      invariant 0 <= i <= |chunks| && n <= REQUEST_SIZE - 1
      invariant Collected(a[..n], chunks[i..]) == Collected("", chunks)
      decreases |chunks| - i
    {
      ghost var got := a[..n];
      var room := REQUEST_SIZE - 1 - n;
      var c := if |chunks[i]| <= room then chunks[i] else chunks[i][..room];
      forall k | 0 <= k < |c| { a[n + k] := c[k]; }
      assert a[..n + |c|] == got + c;
      assert chunks[i..][1..] == chunks[i + 1..];
      n, i := n + |c|, i + 1;
      if '\n' in c { break; }
    }
    a[n] := '\0';
  }
}
