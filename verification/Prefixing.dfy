/** A prefix before every line of an output stream. */
module Prefixing {
  import opened CText
  import opened Rotator

  /** prefix_at_line_start, and how many lines were given a prefix so far. */
  datatype LineState = LineState(atStart: bool, lines: nat)

  const FRESH := LineState(true, 0)

  function StateAfter(st: LineState, b: string): LineState
    decreases |b|
  {
    if b == "" then st
    else
      var s := StateAfter(st, Pop(b));
      LineState(Last(b) == '\n', if s.atStart then s.lines + 1 else s.lines)
  }

  /** What a byte becomes: the first byte of a line follows the prefix of that line. */
  function Lead(supply: nat -> string, s: LineState): string {
    if s.atStart then supply(s.lines) else ""
  }

  function Prefixed(supply: nat -> string, st: LineState, b: string): string
    decreases |b|
  {
    if b == "" then ""
    else Prefixed(supply, st, Pop(b)) + (Lead(supply, StateAfter(st, Pop(b))) + [Last(b)])
  }

  /** One byte more. */
  lemma OneByte(supply: nat -> string, st: LineState, s: string, i: nat)
    requires i < |s|
    ensures var was := StateAfter(st, s[..i]);
      && StateAfter(st, s[..i + 1]) == LineState(s[i] == '\n', if was.atStart then was.lines + 1 else was.lines)
      && Prefixed(supply, st, s[..i + 1]) == Prefixed(supply, st, s[..i]) + (Lead(supply, was) + [s[i]])
  {
    hide Lead;
    assert Pop(s[..i + 1]) == s[..i] && Last(s[..i + 1]) == s[i];
  }

  lemma NoByte(supply: nat -> string, st: LineState)
    ensures StateAfter(st, "") == st && Prefixed(supply, st, "") == ""
  {
  }

  /** Each read prefixed on its own. */
  function PrefixAll(supply: nat -> string, st: LineState, chunks: seq<string>): seq<string>
    decreases |chunks|
  {
    if chunks == [] then []
    else PrefixAll(supply, st, Pop(chunks)) + [Prefixed(supply, StateAfter(st, Concat(Pop(chunks))), Last(chunks))]
  }

  lemma {:induction false} PrefixAppend(supply: nat -> string, st: LineState, a: string, b: string)
    ensures StateAfter(st, a + b) == StateAfter(StateAfter(st, a), b)
    ensures Prefixed(supply, st, a + b) == Prefixed(supply, st, a) + Prefixed(supply, StateAfter(st, a), b)
    decreases |b|
  {
    if b == "" {
      assert a + b == a;
    } else {
      assert Pop(a + b) == a + Pop(b) && Last(a + b) == Last(b);
      PrefixAppend(supply, st, a, Pop(b));
      var lead := Lead(supply, StateAfter(st, Pop(a + b))) + [Last(b)];
      assert Prefixed(supply, st, a) + Prefixed(supply, StateAfter(st, a), Pop(b)) + lead
          == Prefixed(supply, st, a) + (Prefixed(supply, StateAfter(st, a), Pop(b)) + lead);
    }
  }

  /** Prefixing does not depend on how the stream is cut into reads. */
  lemma {:induction false} PrefixSplit(supply: nat -> string, st: LineState, chunks: seq<string>)
    ensures Concat(PrefixAll(supply, st, chunks)) == Prefixed(supply, st, Concat(chunks))
    decreases |chunks|
  {
    if chunks != [] {
      PrefixSplit(supply, st, Pop(chunks));
      PrefixAppend(supply, st, Concat(Pop(chunks)), Last(chunks));
      var all := PrefixAll(supply, st, chunks);
      assert all[..|all| - 1] == PrefixAll(supply, st, Pop(chunks));
    }
  }

  predicate EndsOpen(s: string) {
    s != "" && Last(s) != '\n'
  }

  /** The lines of a text, each with its line end; the last one may lack it. */
  function Lines(s: string): (ls: seq<string>)
    ensures s == "" <==> ls == []
    decreases |s|
  {
    if s == "" then []
    else if EndsOpen(Pop(s)) then Pop(Lines(Pop(s))) + [Last(Lines(Pop(s))) + [Last(s)]]
    else Lines(Pop(s)) + [[Last(s)]]
  }

  lemma ConcatGrows(ls: seq<string>, c: char)
    requires ls != []
    ensures Concat(Pop(ls) + [Last(ls) + [c]]) == Concat(ls) + [c]
  {
    hide Concat;
    ConcatLast(Pop(ls), Last(ls));
    ConcatLast(Pop(ls), Last(ls) + [c]);
    assert Pop(ls) + [Last(ls)] == ls;
    assert Concat(Pop(ls)) + Last(ls) + [c] == Concat(Pop(ls)) + (Last(ls) + [c]);
  }

  lemma {:induction false} LinesJoin(s: string)
    ensures Concat(Lines(s)) == s
    decreases |s|
  {
    hide Concat, Lines;
    if s == "" {
      NothingJoined();
    } else {
      LinesJoin(Pop(s));
      LinesStep(s);
      assert Pop(s) + [Last(s)] == s;
      if EndsOpen(Pop(s)) {
        ConcatGrows(Lines(Pop(s)), Last(s));
      } else {
        ConcatLast(Lines(Pop(s)), [Last(s)]);
      }
    }
  }

  lemma NothingJoined()
    ensures Concat(Lines("")) == ""
  {
  }

  ghost predicate PrefixesAreOneLine(supply: nat -> string) {
    forall n: nat :: Without(supply(n), '\n')
  }

  /** A text that starts a line, then a whole prefix and a byte: one more line. */
  lemma {:induction false} NewLine(w: string, p: string, c: char)
    requires !EndsOpen(w) && Without(p, '\n')
    ensures Lines(w + (p + [c])) == Lines(w) + [p + [c]]
    decreases |p|
  {
    var s := w + (p + [c]);
    assert Last(s) == c && Pop(s) == w + p;
    if p == "" {
      assert Pop(s) == w && p + [c] == [c];
    } else {
      assert p == Pop(p) + [Last(p)];
      NewLine(w, Pop(p), Last(p));
      assert Last(w + p) == Last(p);
      assert Pop(Lines(w) + [p]) == Lines(w);
    }
  }

  /** Each line with its own prefix. */
  function Labelled(supply: nat -> string, lines: seq<string>): (r: seq<string>)
    ensures |r| == |lines| && forall k :: 0 <= k < |lines| ==> r[k] == supply(k) + lines[k]
    decreases |lines|
  {
    if lines == [] then [] else Labelled(supply, Pop(lines)) + [supply(|lines| - 1) + Last(lines)]
  }

  lemma {:induction false} StateIs(b: string)
    ensures StateAfter(FRESH, b) == LineState(!EndsOpen(b), |Lines(b)|)
    decreases |b|
  {
    if b != "" { StateIs(Pop(b)); }
  }

  lemma {:induction false} EndsAlike(supply: nat -> string, b: string)
    ensures EndsOpen(Prefixed(supply, FRESH, b)) == EndsOpen(b)
    decreases |b|
  {
  }

  /** The lines of the prefixed stream are the lines of the stream, each behind exactly
      one prefix, its own. */
  lemma {:induction false} OnePrefixPerLine(supply: nat -> string, b: string)
    requires PrefixesAreOneLine(supply)
    ensures Lines(Prefixed(supply, FRESH, b)) == Labelled(supply, Lines(b))
    decreases |b|
  {
    hide StateAfter, Labelled, Lines;
    if b == "" {
      NothingLabelled(supply);
    } else {
      var a, c := Pop(b), Last(b);
      var w := Prefixed(supply, FRESH, a);
      OnePrefixPerLine(supply, a);
      StateIs(a);
      EndsAlike(supply, a);
      LinesStep(b);
      if EndsOpen(a) {
        assert "" + [c] == [c] && Pop(w + [c]) == w && Last(w + [c]) == c;
        LinesStep(w + [c]);
        LabelledGrows(supply, Lines(a), c);
      } else {
        NewLine(w, supply(|Lines(a)|), c);
        LabelledMore(supply, Lines(a), [c]);
      }
    }
  }

  lemma NothingLabelled(supply: nat -> string)
    ensures Labelled(supply, Lines("")) == Lines("")
  {
  }

  lemma LinesStep(s: string)
    requires s != ""
    ensures EndsOpen(Pop(s)) ==>
      Lines(Pop(s)) != [] && Lines(s) == Pop(Lines(Pop(s))) + [Last(Lines(Pop(s))) + [Last(s)]]
    ensures !EndsOpen(Pop(s)) ==> Lines(s) == Lines(Pop(s)) + [[Last(s)]]
  {
  }

  lemma LabelledMore(supply: nat -> string, ls: seq<string>, x: string)
    ensures Labelled(supply, ls + [x]) == Labelled(supply, ls) + [supply(|ls|) + x]
  {
    assert Pop(ls + [x]) == ls;
  }

  lemma LabelledGrows(supply: nat -> string, ls: seq<string>, c: char)
    requires ls != []
    ensures
      var labelled := Labelled(supply, ls);
      Labelled(supply, Pop(ls) + [Last(ls) + [c]]) == Pop(labelled) + [Last(labelled) + [c]]
  {
    LabelledMore(supply, Pop(ls), Last(ls));
    LabelledMore(supply, Pop(ls), Last(ls) + [c]);
    assert Pop(ls) + [Last(ls)] == ls;
    assert supply(|ls| - 1) + Last(ls) + [c] == supply(|ls| - 1) + (Last(ls) + [c]);
  }

  /** Taking the n-th prefix off the n-th line. */
  function Stripped(supply: nat -> string, lines: seq<string>): string
    decreases |lines|
  {
    if lines == [] then ""
    else
      var p := supply(|lines| - 1);
      Stripped(supply, Pop(lines)) + if p <= Last(lines) then Last(lines)[|p|..] else Last(lines)
  }

  lemma {:induction false} StripLabels(supply: nat -> string, lines: seq<string>)
    ensures Stripped(supply, Labelled(supply, lines)) == Concat(lines)
    decreases |lines|
  {
    if lines != [] {
      var all := Labelled(supply, lines);
      assert Pop(all) == Labelled(supply, Pop(lines));
      StripLabels(supply, Pop(lines));
      var p := supply(|lines| - 1);
      assert Last(all)[|p|..] == Last(lines);
    }
  }

  /** Stripping the prefixes line by line gives the stream back. */
  lemma StripUndoes(supply: nat -> string, b: string)
    requires PrefixesAreOneLine(supply)
    ensures Stripped(supply, Lines(Prefixed(supply, FRESH, b))) == b
  {
    OnePrefixPerLine(supply, b);
    StripLabels(supply, Lines(b));
    LinesJoin(b);
  }

  /** A file that begins with a whole prefix. */
  ghost predicate Led(supply: nat -> string, w: string) {
    exists n: nat :: supply(n) <= w
  }

  /** Every file after the first n was begun by a rotation: it is empty, with a new line
      due, or begins with a whole prefix. */
  ghost predicate AllLed(supply: nat -> string, n: nat, f: Files, atStart: bool) {
    && (forall k :: n < k < |f.done| ==> Led(supply, f.done[k]))
    && (|f.done| > n ==> if f.current == "" then atStart else Led(supply, f.current))
  }

  lemma LedLonger(supply: nat -> string, w: string, s: string)
    requires Led(supply, w)
    ensures Led(supply, w + s)
  {
    var n: nat :| supply(n) <= w;
    assert supply(n) <= w + s;
  }

  /** One byte of the stream, behind its prefix if it starts a line. */
  lemma LedByte(supply: nat -> string, n: nat, r: int, f: Files, s: LineState, c: char, last: bool)
    requires PrefixesAreOneLine(supply) && AllLed(supply, n, f, s.atStart)
    ensures AllLed(supply, n, Put(r, Stream(r, f, Lead(supply, s)), c, last), c == '\n')
  {
    hide Led, Stream;
    var lead := Lead(supply, s);
    StreamAppends(r, f, lead);
    var w := f.current + lead + [c];
    if |f.done| > n {
      if f.current == "" {
        assert supply(s.lines) <= w;
        LedNow(supply, s.lines, w);
      } else {
        assert w == f.current + (lead + [c]);
        LedLonger(supply, f.current, lead + [c]);
      }
    }
  }

  lemma LedNow(supply: nat -> string, n: nat, w: string)
    requires supply(n) <= w
    ensures Led(supply, w)
  {
  }

  lemma {:induction false} LedStream(supply: nat -> string, n: nat, r: int, f: Files, s: LineState, b: string)
    requires PrefixesAreOneLine(supply) && AllLed(supply, n, f, s.atStart)
    ensures AllLed(supply, n, Stream(r, f, Prefixed(supply, s, b)), StateAfter(s, b).atStart)
    decreases |b|
  {
    hide AllLed, Put;
    if b != "" {
      var x, t := Prefixed(supply, s, Pop(b)), StateAfter(s, Pop(b));
      LedStream(supply, n, r, f, s, Pop(b));
      LedByte(supply, n, r, Stream(r, f, x), t, Last(b), false);
      StreamAppend(r, f, x, Lead(supply, t) + [Last(b)]);
      var piece := Lead(supply, t) + [Last(b)];
      assert piece[..|piece| - 1] == Lead(supply, t);
    }
  }

  lemma LedBuffer(supply: nat -> string, n: nat, r: int, f: Files, s: LineState, b: string)
    requires PrefixesAreOneLine(supply) && AllLed(supply, n, f, s.atStart)
    ensures AllLed(supply, n, WriteBuffer(r, f, Prefixed(supply, s, b)), StateAfter(s, b).atStart)
  {
    hide AllLed, Put;
    if b != "" {
      var x, t := Prefixed(supply, s, Pop(b)), StateAfter(s, Pop(b));
      LedStream(supply, n, r, f, s, Pop(b));
      LedByte(supply, n, r, Stream(r, f, x), t, Last(b), true);
      var piece := Lead(supply, t) + [Last(b)];
      BufferAppend(r, f, x, piece);
      assert piece[..|piece| - 1] == Lead(supply, t);
    }
  }

  /** However the stream is read and rotated, every file begun by a rotation that holds
      anything begins with a whole prefix. */
  lemma {:induction false} BegunFilesAreLed(supply: nat -> string, r: int, f: Files, s: LineState, chunks: seq<string>)
    requires PrefixesAreOneLine(supply)
    ensures
      var after := StateAfter(s, Concat(chunks));
      AllLed(supply, |f.done|, WriteAll(r, f, PrefixAll(supply, s, chunks)), after.atStart)
    decreases |chunks|
  {
    hide AllLed, WriteBuffer, StateAfter, Prefixed;
    if chunks == [] {
      NoneBegun(supply, f, s.atStart);
      assert StateAfter(s, "") == s by { NoByte(supply, s); }
    } else {
      var st := StateAfter(s, Concat(Pop(chunks)));
      BegunFilesAreLed(supply, r, f, s, Pop(chunks));
      var all := PrefixAll(supply, s, chunks);
      assert all[..|all| - 1] == PrefixAll(supply, s, Pop(chunks));
      LedBuffer(supply, |f.done|, r, WriteAll(r, f, PrefixAll(supply, s, Pop(chunks))), st, Last(chunks));
      PrefixAppend(supply, s, Concat(Pop(chunks)), Last(chunks));
    }
  }

  lemma NoneBegun(supply: nat -> string, f: Files, atStart: bool)
    ensures AllLed(supply, |f.done|, f, atStart)
  {
  }
}
