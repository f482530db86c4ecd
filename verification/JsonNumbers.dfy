/** Which bytes make a number, and what the number loop makes of any others. */
module JsonNumbers {
  import opened CText
  import opened JsonLexer
  import opened JsonTokens

  /** How far a number has got. */
  datatype Place = Before | Signed | InDigits | Pointed | InFraction | Marked | MarkedSign | InExponent

  function Follow(p: Place, c: char): Option<Place> {
    match p
    case Before => if IsSign(c) then Some(Signed) else if IsDigit(c) then Some(InDigits) else None
    case Signed => if IsDigit(c) then Some(InDigits) else None
    case InDigits =>
      if IsDigit(c) then Some(InDigits)
      else if c == '.' then Some(Pointed)
      else if c == 'e' || c == 'E' then Some(Marked)
      else None
    case Pointed => if IsDigit(c) then Some(InFraction) else None
    case InFraction =>
      if IsDigit(c) then Some(InFraction) else if c == 'e' || c == 'E' then Some(Marked) else None
    case Marked => if IsSign(c) then Some(MarkedSign) else if IsDigit(c) then Some(InExponent) else None
    case MarkedSign => if IsDigit(c) then Some(InExponent) else None
    case InExponent => if IsDigit(c) then Some(InExponent) else None
  }

  predicate Whole(p: Place) {
    p.InDigits? || p.InFraction? || p.InExponent?
  }

  /** The place after a word. */
  function Reach(w: string): Option<Place>
    decreases |w|
  {
    if w == "" then Some(Before)
    else if Reach(Pop(w)).None? then None
    else Follow(Reach(Pop(w)).value, Last(w))
  }

  /** A number that has got to a place: the last whole number in it and the bytes after. */
  ghost predicate GotTo(n: Numeral, rest: string, p: Place) {
    match p
    case Before => false
    case Signed => false
    case InDigits => ValidNumeral(n) && rest == "" && n.fraction == "" && n.exponent.NoExponent?
    case Pointed => ValidNumeral(n) && rest == "." && n.fraction == "" && n.exponent.NoExponent?
    case InFraction => ValidNumeral(n) && rest == "" && n.fraction != "" && n.exponent.NoExponent?
    case Marked => ValidNumeral(n) && (rest == "e" || rest == "E") && n.exponent.NoExponent?
    case MarkedSign =>
      && ValidNumeral(n) && |rest| == 2 && (rest[0] == 'e' || rest[0] == 'E') && IsSign(rest[1])
      && n.exponent.NoExponent?
    case InExponent => ValidNumeral(n) && rest == "" && n.exponent.Exponent?
  }

  /** The number after one more byte. */
  function More(n: Numeral, rest: string, q: Place, c: char): Numeral {
    match q
    case InDigits => n.(digits := n.digits + [c])
    case InFraction => n.(fraction := n.fraction + [c])
    case InExponent =>
      if n.exponent.Exponent? then n.(exponent := n.exponent.(digits := n.exponent.digits + [c]))
      else if rest == "" then n
      else n.(exponent := Exponent(rest[0], rest[1..], [c]))
    case _ => n
  }

  lemma MoreGot(n: Numeral, rest: string, p: Place, c: char)
    requires GotTo(n, rest, p) && Follow(p, c).Some?
    ensures var q := Follow(p, c).value; GotTo(More(n, rest, q, c), if Whole(q) then "" else rest + [c], q)
  {
  }

  lemma PrintsLeft(n: Numeral)
    ensures PrintNumeral(n) == n.sign + n.digits + PrintFraction(n.fraction) + PrintExponent(n.exponent)
  {
    hide PrintFraction, PrintExponent;
    var a, b, f, e := n.sign, n.digits, PrintFraction(n.fraction), PrintExponent(n.exponent);
    assert a + (b + (f + e)) == a + b + f + e;
  }

  lemma NoTail(a: string)
    ensures a + "" == a
  {
  }

  lemma AddToDigits(n: Numeral, c: char)
    requires n.fraction == "" && n.exponent.NoExponent?
    ensures PrintNumeral(n.(digits := n.digits + [c])) == PrintNumeral(n) + [c]
  {
    hide PrintNumeral;
    PrintsLeft(n);
    PrintsLeft(n.(digits := n.digits + [c]));
    NoTail(n.sign + n.digits);
    NoTail(n.sign + (n.digits + [c]));
    assert n.sign + (n.digits + [c]) == n.sign + n.digits + [c];
  }

  lemma AddToFraction(n: Numeral, rest: string, c: char)
    requires n.exponent.NoExponent? && (rest == "" <==> n.fraction != "") && (rest != "" ==> rest == ".")
    ensures PrintNumeral(n.(fraction := n.fraction + [c])) == PrintNumeral(n) + rest + [c]
  {
    hide PrintNumeral;
    var a, m := n.sign + n.digits, n.(fraction := n.fraction + [c]);
    PrintsLeft(n);
    PrintsLeft(m);
    NoTail(a + PrintFraction(n.fraction));
    NoTail(a + PrintFraction(m.fraction));
    NoTail(PrintNumeral(n));
    NoTail(a);
    assert PrintFraction(m.fraction) == PrintFraction(n.fraction) + rest + [c];
    var f := PrintFraction(n.fraction);
    assert a + (f + rest + [c]) == a + f + rest + [c];
  }

  lemma AddToExponent(n: Numeral, rest: string, c: char)
    requires n.exponent.Exponent? ==> rest == ""
    requires n.exponent.NoExponent? ==> rest != ""
    ensures PrintNumeral(More(n, rest, InExponent, c)) == PrintNumeral(n) + rest + [c]
  {
    hide PrintNumeral, PrintFraction;
    var m := More(n, rest, InExponent, c);
    PrintsLeft(n);
    PrintsLeft(m);
    var a := n.sign + n.digits + PrintFraction(n.fraction);
    if n.exponent.Exponent? {
      assert PrintExponent(m.exponent) == PrintExponent(n.exponent) + [c];
      NoTail(PrintNumeral(n));
    } else {
      assert PrintExponent(m.exponent) == rest + [c];
      NoTail(a);
    }
    assert a + (PrintExponent(n.exponent) + rest + [c]) == a + PrintExponent(n.exponent) + rest + [c];
    NoTail(PrintExponent(n.exponent));
  }

  lemma MorePrints(n: Numeral, rest: string, p: Place, c: char)
    requires GotTo(n, rest, p) && Follow(p, c).Some? && Whole(Follow(p, c).value)
    ensures PrintNumeral(More(n, rest, Follow(p, c).value, c)) == PrintNumeral(n) + rest + [c]
  {
    hide PrintNumeral, ValidNumeral;
    match Follow(p, c).value
    case InDigits =>
      AddToDigits(n, c);
      NoTail(PrintNumeral(n));
    case InFraction => AddToFraction(n, rest, c);
    case InExponent => AddToExponent(n, rest, c);
  }

  /** What a word that is a number or begins one has read so far. */
  lemma {:induction false} NumeralSoFar(w: string) returns (n: Numeral, rest: string)
    requires Reach(w).Some? && !Reach(w).value.Before? && !Reach(w).value.Signed?
    ensures GotTo(n, rest, Reach(w).value) && PrintNumeral(n) + rest == w
    decreases |w|
  {
    hide GotTo, More, PrintNumeral;
    var p, q, c := Reach(Pop(w)).value, Reach(w).value, Last(w);
    assert Pop(w) + [c] == w;
    if p.Before? || p.Signed? {
      n, rest := Numeral(Pop(w), [c], "", NoExponent), "";
      FirstDigit(Pop(w), c);
      assert w + "" == w;
    } else {
      n, rest := NumeralSoFar(Pop(w));
      MoreGot(n, rest, p, c);
      if Whole(q) { MorePrints(n, rest, p, c); } else { Unchanged(n, rest, q, c); }
      assert PrintNumeral(n) + rest + [c] == PrintNumeral(n) + (rest + [c]);
      n, rest := More(n, rest, q, c), if Whole(q) then "" else rest + [c];
      assert w + "" == w;
    }
  }

  lemma Unchanged(n: Numeral, rest: string, q: Place, c: char)
    requires !Whole(q)
    ensures More(n, rest, q, c) == n
  {
  }

  lemma FirstDigit(sign: string, c: char)
    requires Reach(sign).Some? && (Reach(sign).value.Before? || Reach(sign).value.Signed?) && IsDigit(c)
    ensures var n := Numeral(sign, [c], "", NoExponent);
      GotTo(n, "", InDigits) && PrintNumeral(n) == sign + [c]
  {
    if sign != "" { assert Reach(Pop(sign)).value.Before? && Pop(sign) == ""; }
    assert [c] + ("" + "") == [c];
  }

  /** A word that ends a number is a number. */
  lemma WholeIsNumeral(w: string) returns (n: Numeral)
    requires Reach(w).Some? && Whole(Reach(w).value)
    ensures ValidNumeral(n) && PrintNumeral(n) == w && (IsDouble(n) <==> !Reach(w).value.InDigits?)
  {
    hide Reach, PrintNumeral;
    var rest;
    n, rest := NumeralSoFar(w);
    assert PrintNumeral(n) + "" == PrintNumeral(n);
  }

  /** The first byte that a number at a place does not go on with. */
  function StopAt(t: string, i: nat, p: Place): (j: nat)
    requires i <= |t|
    ensures i <= j <= |t|
    decreases |t| - i
  {
    if i == |t| || Follow(p, t[i]).None? then i else StopAt(t, i + 1, Follow(p, t[i]).value)
  }

  function PlaceAt(t: string, i: nat, p: Place): Place
    requires i <= |t|
    decreases |t| - i
  {
    if i == |t| || Follow(p, t[i]).None? then p else PlaceAt(t, i + 1, Follow(p, t[i]).value)
  }

  /** What a number that goes on no further amounts to. At the end of the text, a point or
      a mark need no digit, and whatever is read counts as a double. */
  function Stopped(t: string, j: nat, p: Place): NumberScan
    requires j <= |t|
  {
    if j == |t| then (if p.Signed? || p.MarkedSign? then NoNumber else Number(j, true))
    else if Whole(p) && !IsNumberChar(t[j]) then Number(j, !p.InDigits?)
    else BadNumber(j + 1)
  }

  /** A number of 32 bytes is too long. */
  predicate Agrees(r: NumberScan, t: string, start: nat, i: nat, p: Place)
    requires i <= |t|
  {
    var j := StopAt(t, i, p);
    if j - start < 32 then r == Stopped(t, j, PlaceAt(t, i, p)) else r == NoNumber || r == BadNumber(start + 33)
  }

  /** The flags of the number loop at each place. */
  predicate Flags(s: NumberState, p: Place) {
    && (p.Before? || p.InDigits? ==> !s.dot) && (p.Pointed? || p.InFraction? ==> s.dot)
    && s.exponent == (p.Marked? || p.MarkedSign? || p.InExponent?)
    && (s.expSign ==> s.exponent)
  }

  /** The number loop at the head of a pass. */
  predicate AtHead(t: string, start: nat, s: NumberState, p: Place) {
    && start <= s.i <= |t| && s.i - start <= 32 && Flags(s, p)
    && (s.i == |t| || s.isDouble == !(p.Before? || p.InDigits?)) && (s.i == |t| ==> s.isDouble)
    && match p
       case Before => s.i < |t| && (IsSign(t[s.i]) || IsDigit(t[s.i]))
       case Signed => false
       case MarkedSign => false
       case Pointed => s.i == |t| || IsDigit(t[s.i])
       case Marked => if s.expSign then s.i < |t| && IsSign(t[s.i]) else s.i == |t| || IsDigit(t[s.i])
       case _ => s.i == |t| || IsDigit(t[s.i]) || !IsNumberChar(t[s.i])
  }

  /** The byte at i ends a number. */
  predicate EndsNumber(t: string, i: nat) {
    i < |t| && !IsNumberChar(t[i])
  }

  /** The rest of the number loop after a digit. */
  function Resume(t: string, start: nat, step: NumberStep): NumberScan
    requires step.More? ==> start <= step.s.i <= |t|
    requires !step.NumberDone?
  {
    match step
    case More(s) => ScanNumber(t, start, s)
    case NumberBad(pos) => BadNumber(pos)
    case NumberOverrun => NoNumber
    case NumberDone => NoNumber
  }

  lemma {:induction false} PassAgrees(t: string, start: nat, s: NumberState, p: Place)
    requires AtHead(t, start, s, p)
    ensures Agrees(ScanNumber(t, start, s), t, start, s.i, p)
    decreases |t| - s.i, 1
  {
    if s.i == |t| || !IsNumberChar(t[s.i]) || s.i - start >= 32 {
      PassEnds(t, start, s, p);
    } else if IsSign(t[s.i]) {
      SignAgrees(t, start, s, p);
    } else {
      DigitAgrees(t, start, s.(i := s.i + 1), Follow(p, t[s.i]).value);
    }
  }

  /** A pass that takes nothing. */
  lemma PassEnds(t: string, start: nat, s: NumberState, p: Place)
    requires AtHead(t, start, s, p) && (s.i == |t| || !IsNumberChar(t[s.i]) || s.i - start >= 32)
    ensures Agrees(ScanNumber(t, start, s), t, start, s.i, p)
  {
  }

  /** A pass that takes a sign, with the digit behind it. */
  lemma {:induction false} SignAgrees(t: string, start: nat, s: NumberState, p: Place)
    requires AtHead(t, start, s, p) && s.i < |t| && IsSign(t[s.i]) && s.i - start < 32
    ensures Agrees(ScanNumber(t, start, s), t, start, s.i, p)
    decreases |t| - s.i, 0
  {
    if s.i + 1 < |t| && IsDigit(t[s.i + 1]) && s.i + 1 - start < 32 {
      DigitAgrees(t, start, s.(i := s.i + 2), Follow(Follow(p, t[s.i]).value, t[s.i + 1]).value);
    }
  }

  /** After a digit. */
  lemma {:induction false} DigitAgrees(t: string, start: nat, s: NumberState, p: Place)
    requires start <= s.i <= |t| && s.i - start <= 32 && Flags(s, p) && Whole(p) && s.isDouble == !p.InDigits?
    ensures Agrees(Resume(t, start, AfterDigit(t, start, s)), t, start, s.i, p)
    decreases |t| - s.i, 2
  {
    var r := AfterDigit(t, start, s);
    if r.More? {
      var q := if r.s.i == s.i then p else Follow(p, t[s.i]).value;
      PassAgrees(t, start, r.s, q);
    }
  }

  /** What the number loop makes of any bytes that begin like a number. */
  lemma NumberExact(t: string, i: nat)
    requires i < |t| && (IsSign(t[i]) || IsDigit(t[i]))
    ensures Agrees(ScanNumber(t, i, NumberState(i, false, false, false, false)), t, i, i, Before)
  {
    PassAgrees(t, i, NumberState(i, false, false, false, false), Before);
  }

  /** Up to where it stops, a number is read. */
  lemma {:induction false} StopReaches(t: string, start: nat, i: nat, p: Place)
    requires start <= i <= |t| && Reach(t[start..i]) == Some(p)
    ensures Reach(t[start..StopAt(t, i, p)]) == Some(PlaceAt(t, i, p))
    ensures StopAt(t, i, p) < |t| ==> Follow(PlaceAt(t, i, p), t[StopAt(t, i, p)]).None?
    decreases |t| - i
  {
    hide Follow;
    if i < |t| && Follow(p, t[i]).Some? {
      assert Pop(t[start..i + 1]) == t[start..i];
      StopReaches(t, start, i + 1, Follow(p, t[i]).value);
    }
  }

  /** The word is a number or the beginning of one. */
  ghost predicate BeginsNumber(w: string) {
    exists n, x :: ValidNumeral(n) && PrintNumeral(n) == w + x
  }

  lemma {:induction false} ReachPrefix(w: string, x: string)
    requires Reach(w + x).Some?
    ensures Reach(w).Some?
    decreases |x|
  {
    hide Follow;
    if x == "" {
      assert w + x == w;
    } else {
      assert Pop(w + x) == w + Pop(x);
      ReachPrefix(w, Pop(x));
    }
  }

  /** Digits after a word. */
  lemma {:induction false} ReachDigits(w: string, p: Place, ds: string)
    requires Reach(w) == Some(p) && Digits(ds)
    ensures Reach(w + ds) == Follow(p, '0') && Follow(p, '0').Some? && Whole(Follow(p, '0').value)
    decreases |ds|
  {
    assert Pop(w + ds) == w + Pop(ds);
    if |ds| == 1 { assert w + Pop(ds) == w; } else { ReachDigits(w, p, Pop(ds)); }
  }

  lemma ReachOne(w: string, c: char)
    ensures Reach(w + [c]) == if Reach(w).None? then None else Follow(Reach(w).value, c)
  {
    hide Follow;
    assert Pop(w + [c]) == w;
  }

  /** Every number is read to its end. */
  lemma NumeralReaches(n: Numeral)
    requires ValidNumeral(n)
    ensures Reach(PrintNumeral(n)).Some? && Whole(Reach(PrintNumeral(n)).value)
    ensures Reach(PrintNumeral(n)).value.InDigits? <==> !IsDouble(n)
  {
    hide Reach, PrintNumeral;
    PrintsLeft(n);
    NoWord();
    ReachSign(n.sign);
    var w := n.sign;
    ReachDigits(w, Reach(w).value, n.digits);
    w := w + n.digits;
    if n.fraction == "" {
      NoTail(w);
    } else {
      ReachOne(w, '.');
      ReachDigits(w + ".", Pointed, n.fraction);
      assert w + PrintFraction(n.fraction) == w + "." + n.fraction;
    }
    w := w + PrintFraction(n.fraction);
    if n.exponent.NoExponent? {
      NoTail(w);
    } else {
      ReachExponent(w, n.exponent);
    }
  }

  lemma NoWord()
    ensures Reach("") == Some(Before)
  {
  }

  lemma ReachSign(sign: string)
    requires OptionalSign(sign)
    ensures Reach(sign) == Some(if sign == "" then Before else Signed)
  {
    if sign != "" { assert Pop(sign) == ""; }
  }

  lemma ReachExponent(w: string, e: Exponent)
    requires Reach(w) == Some(InDigits) || Reach(w) == Some(InFraction)
    requires e.Exponent? && ValidExponent(e)
    ensures Reach(w + PrintExponent(e)) == Some(InExponent)
  {
    hide Reach;
    ReachOne(w, e.e);
    var m := w + [e.e];
    if e.sign == "" {
      ReachDigits(m, Marked, e.digits);
      assert w + PrintExponent(e) == m + e.digits;
    } else {
      ReachOne(m, e.sign[0]);
      ReachDigits(m + [e.sign[0]], MarkedSign, e.digits);
      assert w + PrintExponent(e) == m + [e.sign[0]] + e.digits;
    }
  }

  /** What begins a number is what can be read; a digit always completes it. */
  lemma BeginsExact(w: string)
    ensures BeginsNumber(w) <==> Reach(w).Some?
  {
    hide Reach, ValidNumeral, PrintNumeral;
    if n, x :| ValidNumeral(n) && PrintNumeral(n) == w + x {
      NumeralReaches(n);
      ReachPrefix(w, x);
    }
    if Reach(w).Some? {
      OneDigit();
      ReachDigits(w, Reach(w).value, "0");
      var n := WholeIsNumeral(w + "0");
      assert PrintNumeral(n) == w + "0";
    }
  }

  lemma OneDigit()
    ensures Digits("0")
  {
  }

  /** A word that is read leads to the place behind it. */
  lemma {:induction false} ReadsThrough(t: string, i: nat, w: string)
    requires Reads(t, i, w) && Reach(w).Some?
    ensures StopAt(t, i, Before) == StopAt(t, i + |w|, Reach(w).value)
    ensures PlaceAt(t, i, Before) == PlaceAt(t, i + |w|, Reach(w).value)
    decreases |w|
  {
    hide Follow;
    if w != "" {
      assert t[i + (|w| - 1)] == Last(w);
      ReadsThrough(t, i, Pop(w));
    }
  }

  /** A number that fits the scratch buffer is consumed whole and classified by its
      fraction and exponent. */
  lemma ScanNumeral(t: string, i: nat, n: Numeral)
    requires ValidNumeral(n) && Reads(t, i, PrintNumeral(n)) && EndsNumber(t, i + |PrintNumeral(n)|)
    requires |PrintNumeral(n)| < SCRATCH_SIZE
    ensures ScanNumber(t, i, NumberState(i, false, false, false, false))
         == Number(i + |PrintNumeral(n)|, IsDouble(n))
  {
    hide Reach, PrintNumeral, ValidNumeral, ScanNumber, Reads;
    var w := PrintNumeral(n);
    NumeralReaches(n);
    ReadsThrough(t, i, w);
    FirstByte(t, i, w);
    NumberExact(t, i);
  }

  lemma FirstByte(t: string, i: nat, w: string)
    requires Reads(t, i, w) && Reach(w).Some? && !Reach(w).value.Before?
    ensures w != "" && i < |t| && t[i] == w[0] && (IsSign(w[0]) || IsDigit(w[0]))
  {
    NoWord();
    assert w[..1] + w[1..] == w;
    ReachPrefix(w[..1], w[1..]);
    assert Pop(w[..1]) == "" && Last(w[..1]) == w[0];
    assert t[i + 0] == w[0];
  }
}
