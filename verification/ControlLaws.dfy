/** What every request is taken for. */
module ControlLaws {
  import opened CText
  import opened ControlRequest

  ghost predicate OnlyBlanks(s: string) {
    forall k :: 0 <= k < |s| ==> s[k] == ' ' || s[k] == '\t'
  }

  ghost predicate OnlyTrailing(s: string) {
    forall k :: 0 <= k < |s| ==> s[k] == ' ' || s[k] == '\t' || s[k] == '\r'
  }

  ghost predicate NoBlank(s: string) {
    forall k :: 0 <= k < |s| ==> s[k] != ' ' && s[k] != '\t'
  }

  /** A line in its parts: a name is set off by blanks, begins with none, and ends in no
      byte that would be trimmed. */
  ghost predicate Parts(lead: string, command: string, gap: string, name: string, tail: string) {
    && OnlyBlanks(lead) && NoBlank(command) && OnlyBlanks(gap) && OnlyTrailing(tail)
    && (command == "" ==> gap == "") && (gap == "" ==> name == "" && tail == "")
    && (name != "" ==> name[0] != ' ' && name[0] != '\t')
    && (name != "" ==> Last(name) != ' ' && Last(name) != '\t' && Last(name) != '\r')
  }

  /** Whatever a request consists of, its tokens are the command and the name; what
      follows the first line end plays no part. */
  lemma TokensOf(lead: string, command: string, gap: string, name: string, tail: string, rest: string)
    requires Parts(lead, command, gap, name, tail) && Without(lead + (command + (gap + (name + tail))), '\n')
    requires rest == "" || rest[0] == '\n'
    ensures Tokens(lead + (command + (gap + (name + tail))) + rest) == (command, name)
  {
    hide Line, Word, SkipBlanks, TrimEnd, OnlyBlanks, NoBlank, OnlyTrailing;
    var behind := gap + (name + tail);
    LineBehind(lead + (command + behind), rest);
    LineStops(rest);
    assert lead + (command + behind) + "" == lead + (command + behind);
    SkipAll(lead, command + behind);
    Stands(lead, command, gap, name, tail);
    SkipShortens(command + behind);
    WordIs(command, behind);
    assert (command + behind)[|command|..] == behind;
    SkipAll(gap, name + tail);
    TrimTail(name, tail);
  }

  lemma LineStops(rest: string)
    requires rest == "" || rest[0] == '\n'
    ensures Line(rest) == ""
  {
  }

  /** Neither the command nor what follows it begins with a wrong byte. */
  lemma Stands(lead: string, command: string, gap: string, name: string, tail: string)
    requires Parts(lead, command, gap, name, tail)
    ensures var behind := gap + (name + tail);
      && (command + behind != "" ==> !IsSpace((command + behind)[0]))
      && (behind == "" || IsSpace(behind[0]))
      && forall k :: 0 <= k < |command| ==> !IsSpace(command[k])
  {
  }

  lemma {:induction false} SkipAll(blanks: string, s: string)
    requires OnlyBlanks(blanks)
    ensures SkipBlanks(blanks + s) == SkipBlanks(s)
    decreases |blanks|
  {
    if blanks == "" {
      assert blanks + s == s;
    } else {
      assert (blanks + s)[1..] == blanks[1..] + s;
      SkipAll(blanks[1..], s);
    }
  }

  lemma WordIs(command: string, behind: string)
    requires (forall k :: 0 <= k < |command| ==> !IsSpace(command[k])) && (behind == "" || IsSpace(behind[0]))
    ensures Word(command + behind) == command
  {
    WordOf(command, behind);
  }

  /** Blanks and carriage returns behind a name are trimmed, blanks before it skipped. */
  lemma {:induction false} TrimTail(name: string, tail: string)
    requires OnlyTrailing(tail)
    requires name != "" ==> name[0] != ' ' && name[0] != '\t'
    requires name != "" ==> Last(name) != ' ' && Last(name) != '\t' && Last(name) != '\r'
    ensures TrimEnd(SkipBlanks(name + tail)) == name
    decreases |tail|
  {
    if name != "" {
      SkipShortens(name + tail);
      TrimAll(name, tail);
    } else {
      assert name + tail == tail;
      if tail != "" && IsSpace(tail[0]) {
        TrimTail("", tail[1..]);
        assert "" + tail[1..] == tail[1..];
      } else {
        SkipShortens(tail);
        TrimAll("", tail);
        assert "" + tail == tail;
      }
    }
  }

  lemma {:induction false} TrimAll(name: string, tail: string)
    requires OnlyTrailing(tail)
    requires name != "" ==> Last(name) != ' ' && Last(name) != '\t' && Last(name) != '\r'
    ensures TrimEnd(name + tail) == name
    decreases |tail|
  {
    if tail == "" {
      assert name + tail == name;
    } else {
      assert Pop(name + tail) == name + Pop(tail);
      TrimAll(name, Pop(tail));
    }
  }

  lemma {:induction false} SkipIs(s: string) returns (lead: string)
    ensures s == lead + SkipBlanks(s) && OnlyBlanks(lead)
    ensures SkipBlanks(s) != "" ==> SkipBlanks(s)[0] != ' ' && SkipBlanks(s)[0] != '\t'
    decreases |s|
  {
    lead := "";
    if s != "" && IsSpace(s[0]) {
      lead := SkipIs(s[1..]);
      lead := [s[0]] + lead;
    }
  }

  lemma {:induction false} TrimIs(s: string) returns (tail: string)
    ensures s == TrimEnd(s) + tail && OnlyTrailing(tail)
    ensures var t := TrimEnd(s); t != "" ==> Last(t) != ' ' && Last(t) != '\t' && Last(t) != '\r'
    decreases |s|
  {
    tail := "";
    if s != "" && IsTrailing(Last(s)) {
      tail := TrimIs(Pop(s));
      tail := tail + [Last(s)];
    }
  }

  /** And every request consists of such parts around its tokens. */
  lemma TokensCover(request: string) returns (lead: string, gap: string, tail: string, rest: string)
    ensures var (command, name) := Tokens(request);
      && Parts(lead, command, gap, name, tail) && Without(lead + (command + (gap + (name + tail))), '\n')
      && request == lead + (command + (gap + (name + tail))) + rest && (rest == "" || rest[0] == '\n')
  {
    hide SkipBlanks, TrimEnd;
    var line := Line(request);
    rest := request[|line|..];
    lead := SkipIs(line);
    var l := SkipBlanks(line);
    var command, behind := Word(l), l[|Word(l)|..];
    gap := SkipIs(behind);
    tail := TrimIs(SkipBlanks(behind));
    assert l == command + behind && request == line + rest;
    TokenParts(lead, command, gap, SkipBlanks(behind), TrimEnd(SkipBlanks(behind)), tail);
  }

  lemma TokenParts(lead: string, command: string, gap: string, m: string, name: string, tail: string)
    requires OnlyBlanks(lead) && (forall k :: 0 <= k < |command| ==> !IsSpace(command[k])) && OnlyBlanks(gap)
    requires OnlyTrailing(tail) && m == name + tail
    requires m != "" ==> !IsSpace(m[0])
    requires command == "" ==> gap + m == "" || !IsSpace((gap + m)[0])
    requires gap + m == "" || IsSpace((gap + m)[0])
    requires name != "" ==> Last(name) != ' ' && Last(name) != '\t' && Last(name) != '\r'
    ensures Parts(lead, command, gap, name, tail)
  {
    if gap == "" { assert gap + m == m; }
    if name != "" { assert m[0] == name[0]; }
  }

  /** The client refuses to send what the supervisor could not collect. */
  lemma PrintedFits(command: string, name: Option<string>)
    ensures var text := command + (if name.Some? then " " + name.value else "") + "\n";
      Printed(command, name) == if |text| <= 1023 then Some(text) else None
  {
  }

  /** The word in letters of either case; word is in upper case. */
  ghost predicate Spells(s: string, word: string) {
    |s| == |word| && forall k :: 0 <= k < |word| ==> s[k] == word[k] || s[k] as int == word[k] as int + 32
  }

  lemma SpellsWord(s: string, word: string)
    requires forall k :: 0 <= k < |word| ==> 'A' <= word[k] <= 'Z'
    ensures SameWord(s, word) <==> Spells(s, word)
  {
    hide Lower;
    LowerLength(s);
    LowerLength(word);
    if SameWord(s, word) {
      assert |s| == |word|;
      forall k | 0 <= k < |word| ensures s[k] == word[k] || s[k] as int == word[k] as int + 32 {
        assert Lower(s)[k] == Lower(word)[k];
      }
    }
  }

  lemma WordsDiffer(s: string)
    ensures !(Spells(s, "LIST") && Spells(s, "STATUS")) && !(Spells(s, "LIST") && Spells(s, "START"))
    ensures !(Spells(s, "LIST") && Spells(s, "STOP")) && !(Spells(s, "STATUS") && Spells(s, "START"))
    ensures !(Spells(s, "STATUS") && Spells(s, "STOP")) && !(Spells(s, "START") && Spells(s, "STOP"))
    ensures !Spells("", "LIST") && !Spells("", "STATUS") && !Spells("", "START") && !Spells("", "STOP")
  {
    if Spells(s, "LIST") { assert s[0] == 'L' || s[0] == 'l'; }
    if Spells(s, "STOP") { assert s[0] == 'S' || s[0] == 's'; }
  }

  /** What each command and name are answered with: exactly these four words are commands,
      in any case; LIST takes no name. */
  lemma DispatchExact(command: string, name: string)
    ensures Dispatch(command, name) == MissingCommand <==> command == ""
    ensures Dispatch(command, name) == ListTakesNoName <==> Spells(command, "LIST") && name != ""
    ensures Dispatch(command, name) == Do(List, "") <==> Spells(command, "LIST") && name == ""
    ensures Dispatch(command, name) == Do(Status, name) <==> Spells(command, "STATUS")
    ensures Dispatch(command, name) == Do(Start, name) <==> Spells(command, "START")
    ensures Dispatch(command, name) == Do(Stop, name) <==> Spells(command, "STOP")
    ensures Dispatch(command, name).Do? ==> Dispatch(command, name).name == name
  {
    hide SameWord, Spells;
    SpellsWord(command, "LIST");
    SpellsWord(command, "STATUS");
    SpellsWord(command, "START");
    SpellsWord(command, "STOP");
    WordsDiffer(command);
  }
}
