/** edJSON_string_unescape over memory: source and dest may be the same bytes. */
module StringDecoder {
  import opened CText
  import opened Utf8
  import opened JsonLexer
  import opened JsonTokens
  import opened Unescape

  /** From si on, the source still holds the bytes it held at the start. */
  ghost predicate Unread(source: array<char>, off: nat, src: string, n: nat, si: nat)
    reads source
  {
    n < |src| && off + n < source.Length && forall k :: si <= k <= n ==> source[off + k] == src[k]
  }

  /** Up to four digits, ending early where the span ends. */
  method ReadDigits(source: array<char>, off: nat, ghost src: string, n: nat, from: nat) returns (r: Hex)
    requires Unread(source, off, src, n, from)
    ensures r == ReadHex(src, n, from, 4, 0)
  {
    hide IsHex, HexValue;
    var si: nat, i: nat, x: nat := from, 0, 0;
    while si < n && i < 4
      invariant i <= 4 && from <= si
      invariant ReadHex(src, n, si, 4 - i, x) == ReadHex(src, n, from, 4, 0)
      decreases 4 - i
    {
      if !IsHex(source[off + si]) { return NotHex; }
      x := 16 * x + HexValue(source[off + si]);
      si, i := si + 1, i + 1;
    }
    return Hex(x, si);
  }

  method UnicodeEscape(source: array<char>, off: nat, ghost src: string, n: nat, from: nat) returns (r: Hex)
    requires Unread(source, off, src, n, from) && from <= n + 1
    ensures r == ReadUnicode(src, n, from)
  {
    r := ReadDigits(source, off, src, n, from);
    if r.NotHex? || r.value < 0xD800 { return; }
    var u, si := r.value, r.next;
    if n < si + 2 || source[off + si] != '\\' || source[off + si + 1] != 'u' { return NotHex; }
    r := ReadDigits(source, off, src, n, si + 2);
    if r.NotHex? { return; }
    if r.value < 0xDC00 { return NotHex; }
    return Hex((u - 0xD800) * 0x400 + (r.value - 0xDC00) + 0x1_0000, r.next);
  }

  /** The assignments that write a code point; the last test of the two-octet form
      comes after its lead octet is written. */
  method WriteCode(dest: array<char>, at: nat, u: nat) returns (ok: bool)
    requires u < 0x11_0000 && at + Width(u) <= dest.Length
    modifies dest
    ensures ok == Encode(u).Some?
    ensures ok ==> dest[at..at + Width(u)] == Encode(u).value
    ensures forall k :: 0 <= k < dest.Length && !(at <= k < at + Width(u)) ==> dest[k] == old(dest[k])
  {
    if u < 0x80 {
      dest[at] := Byte(u);
    } else if u < 0x800 {
      dest[at] := Byte(0xC0 + u / 0x40 % 0x10);
      if dest[at] as int < 0xC3 { return false; }
      dest[at + 1] := Byte(0x80 + u % 0x40);
    } else if u < 0x1_0000 {
      dest[at] := Byte(0xE0 + u / 0x1000 % 0x10);
      dest[at + 1] := Byte(0x80 + u / 0x40 % 0x40);
      dest[at + 2] := Byte(0x80 + u % 0x40);
    } else {
      dest[at] := Byte(0xF0 + u / 0x4_0000 % 8);
      dest[at + 1] := Byte(0x80 + u / 0x1000 % 0x40);
      dest[at + 2] := Byte(0x80 + u / 0x40 % 0x40);
      dest[at + 3] := Byte(0x80 + u % 0x40);
    }
    return true;
  }

  lemma PrependedTwice(a: string, b: string, d: Decoded)
    ensures Prepended(a, Prepended(b, d)) == Prepended(a + b, d)
  {
    if d.Decoded? { assert a + (b + d.bytes) == a + b + d.bytes; }
  }

  lemma PrependedEnds(a: string, d: Decoded)
    ensures Prepended("", d) == d && Prepended(a, Decoded("")) == Decoded(a)
    ensures Prepended(a, NoRoom) == NoRoom && Prepended(a, Malformed) == Malformed
  {
    assert a + "" == a;
    if d.Decoded? { assert "" + d.bytes == d.bytes; }
  }

  /** The return code for a decoding result. */
  function ReturnCode(d: Decoded): int {
    match d
    case Decoded(b) => |b|
    case NoRoom => NO_MEMORY
    case Malformed => BAD_STRING
  }

  /** How many bytes of dest may be used: in place, as many as the source has. */
  function Limit(inPlace: bool, destSize: nat, n: nat): nat {
    if inPlace then n else destSize
  }

  /** One pass of the loop: si and di move past a unit and what it stands for. */
  datatype Pass = Wrote(si: nat, di: nat) | Failed(rc: int)

  /** dest may be source itself, at the same place: then as many bytes of it may be
      used as the source has, and writing never overtakes reading. */
  ghost predicate Placed(dest: array<char>, dOff: nat, limit: nat, source: array<char>, sOff: nat, n: nat,
                         si: nat, di: nat) {
    && dOff + limit <= dest.Length && sOff + n < source.Length && di <= limit
    && (dest == source ==> dOff == sOff && limit == n && di <= si)
  }

  /** What a pass from si, di leaves behind. */
  ghost predicate Passed(dest: array<char>, dOff: nat, limit: nat, source: array<char>, sOff: nat, src: string, n: nat,
                         si: nat, di: nat, r: Pass)
    requires si < n < |src|
    reads dest, source
  {
    match r
    case Failed(rc) =>
      (rc == NO_MEMORY && Decode(src, n, si, di, limit) == NoRoom)
      || (rc == BAD_STRING && Decode(src, n, si, di, limit) == Malformed)
    case Wrote(si', di') =>
      && si < si' <= n + 1 && di < di' && Placed(dest, dOff, limit, source, sOff, n, si', di')
      && Unread(source, sOff, src, n, si')
      && Decode(src, n, si, di, limit) == Prepended(dest[dOff + di..dOff + di'], Decode(src, n, si', di', limit))
  }

  method PlainPass(dest: array<char>, dOff: nat, limit: nat, source: array<char>, sOff: nat, ghost src: string, n: nat,
                   ghost si: nat, di: nat, c: char, next: nat) returns (r: Pass)
    requires si < n && Unread(source, sOff, src, n, si) && di < limit
    requires Placed(dest, dOff, limit, source, sOff, n, si, di)
    requires UnitAt(src, n, si) == Plain(c, next)
    modifies dest
    ensures Passed(dest, dOff, limit, source, sOff, src, n, si, di, r)
    ensures forall k :: 0 <= k < dest.Length && !(dOff + di <= k < dOff + limit) ==> dest[k] == old(dest[k])
  {
    hide UnitAt;
    dest[dOff + di] := c;
    assert dest[dOff + di..dOff + (di + 1)] == [c];
    return Wrote(next, di + 1);
  }

  method CodePass(dest: array<char>, dOff: nat, limit: nat, source: array<char>, sOff: nat, ghost src: string, n: nat,
                  ghost si: nat, di: nat, u: nat, next: nat) returns (r: Pass)
    requires si < n && Unread(source, sOff, src, n, si) && di < limit
    requires Placed(dest, dOff, limit, source, sOff, n, si, di)
    requires UnitAt(src, n, si) == Code(u, next)
    modifies dest
    ensures Passed(dest, dOff, limit, source, sOff, src, n, si, di, r)
    ensures forall k :: 0 <= k < dest.Length && !(dOff + di <= k < dOff + limit) ==> dest[k] == old(dest[k])
  {
    hide UnitAt, Encode;
    if u >= 0x11_0000 { return Failed(BAD_STRING); }
    if Width(u) > 1 && di + Width(u) >= limit { return Failed(NO_MEMORY); }
    UnitShrinks(src, n, si);
    var ok := WriteCode(dest, dOff + di, u);
    if !ok { return Failed(BAD_STRING); }
    return Wrote(next, di + Width(u));
  }

  method DecodeUnit(dest: array<char>, dOff: nat, limit: nat, source: array<char>, sOff: nat, ghost src: string,
                    n: nat, si: nat, di: nat)
    returns (r: Pass)
    requires si < n && Unread(source, sOff, src, n, si) && Placed(dest, dOff, limit, source, sOff, n, si, di)
    modifies dest
    ensures Passed(dest, dOff, limit, source, sOff, src, n, si, di, r)
    ensures forall k :: 0 <= k < dest.Length && !(dOff + di <= k < dOff + limit) ==> dest[k] == old(dest[k])
  {
    hide ReadUnicode, Encode;
    if di >= limit { return Failed(NO_MEMORY); }
    var c := source[sOff + si];
    if c != '\\' {
      r := PlainPass(dest, dOff, limit, source, sOff, src, n, si, di, c, si + 1);
      return;
    }
    c := source[sOff + si + 1];
    if IsSimpleEscape(c) {
      r := PlainPass(dest, dOff, limit, source, sOff, src, n, si, di, SimpleEscape(c), si + 2);
      return;
    }
    if c != 'u' { return Failed(BAD_STRING); }
    var h := UnicodeEscape(source, sOff, src, n, si + 2);
    if h.NotHex? { return Failed(BAD_STRING); }
    r := CodePass(dest, dOff, limit, source, sOff, src, n, si, di, h.value, h.next);
  }

  lemma DecodeEnds(src: string, n: nat, si: nat, di: nat, limit: nat)
    requires n <= si <= n + 1 && n < |src|
    ensures Decode(src, n, si, di, limit) == Decoded("")
  {
  }

  /** Unit after unit, up to the end of the span. */
  method Passes(dest: array<char>, dOff: nat, limit: nat, source: array<char>, sOff: nat, ghost src: string, n: nat)
    returns (r: Pass)
    requires n < |src| && Unread(source, sOff, src, n, 0) && Placed(dest, dOff, limit, source, sOff, n, 0, 0)
    modifies dest
    ensures r.Failed? ==> (r.rc == NO_MEMORY || r.rc == BAD_STRING) && r.rc == ReturnCode(Decode(src, n, 0, 0, limit))
    ensures r.Wrote? ==> r.di <= limit && Decode(src, n, 0, 0, limit) == Decoded(dest[dOff..dOff + r.di])
    ensures forall k :: 0 <= k < dest.Length && !(dOff <= k < dOff + limit) ==> dest[k] == old(dest[k])
  {
    hide Decode, Unread, Prepended;
    r := Wrote(0, 0);
    PrependedEnds("", Decode(src, n, 0, 0, limit));
    assert dest[dOff..dOff + r.di] == "";
    while r.si < n
      invariant r.Wrote? && Unread(source, sOff, src, n, r.si) && r.si <= n + 1
      invariant Placed(dest, dOff, limit, source, sOff, n, r.si, r.di)
      invariant Decode(src, n, 0, 0, limit) == Prepended(dest[dOff..dOff + r.di], Decode(src, n, r.si, r.di, limit))
      invariant forall k :: 0 <= k < dest.Length && !(dOff <= k < dOff + limit) ==> dest[k] == old(dest[k])
      decreases n + 1 - r.si
    {
      ghost var done, s := dest[dOff..dOff + r.di], r;
      r := DecodeUnit(dest, dOff, limit, source, sOff, src, n, r.si, r.di);
      assert dest[dOff..dOff + s.di] == done;
      PrependedEnds(done, NoRoom);
      if r.Failed? { return; }
      PrependedTwice(done, dest[dOff + s.di..dOff + r.di], Decode(src, n, r.si, r.di, limit));
      assert dest[dOff..dOff + r.di] == done + dest[dOff + s.di..dOff + r.di];
    }
    DecodeEnds(src, n, r.si, r.di, limit);
    PrependedEnds(dest[dOff..dOff + r.di], NoRoom);
  }

  /** Decoding n bytes of source, cut short by dest's size unless dest is source. Then
      comes the terminator: outside says that there is no byte left for it, where the
      code writes behind its destination. */
  method UnescapeInto(dest: array<char>, dOff: nat, destSize: nat, source: array<char>, sOff: nat, n: nat)
    returns (rc: int, outside: bool)
    requires sOff + n < source.Length && dOff + Limit(dest == source, destSize, n) <= dest.Length
    requires dest == source ==> dOff == sOff
    modifies dest
    ensures destSize == 0 ==> rc == NO_INPUT && dest[..] == old(dest[..])
    ensures destSize > 0 ==>
      rc == ReturnCode(Decode(old(source[sOff..]), n, 0, 0, Limit(dest == source, destSize, n)))
    ensures outside <==> destSize > 0 && rc >= 0 && dOff + rc == dest.Length
    ensures destSize > 0 && rc >= 0 ==>
      && rc <= Limit(dest == source, destSize, n) && (outside || dest[dOff + rc] == '\0')
      && Decode(old(source[sOff..]), n, 0, 0, Limit(dest == source, destSize, n)) == Decoded(dest[dOff..dOff + rc])
    ensures forall k :: 0 <= k < dest.Length && !(dOff <= k <= dOff + Limit(dest == source, destSize, n)) ==>
      dest[k] == old(dest[k])
  {
    hide Decode;
    if destSize == 0 { return NO_INPUT, false; }
    ghost var src := source[sOff..];
    var r := Passes(dest, dOff, Limit(dest == source, destSize, n), source, sOff, src, n);
    if r.Failed? { return r.rc, false; }
    if dOff + r.di == dest.Length { return r.di, true; }
    dest[dOff + r.di] := '\0';
    return r.di, false;
  }

  /** Run in place on the span of an accepted string, the decoder leaves there exactly
      the bytes of the original text, never longer than the span, and fails only on an
      escape it cannot convert. */
  method UnescapeInPlace(buffer: array<char>, off: nat, n: nat) returns (rc: int)
    requires off + n < buffer.Length && n > 0
    modifies buffer
    ensures rc == ReturnCode(AsDecoded(Text(old(buffer[off..]), n, 0))) && rc != NO_MEMORY
    ensures rc >= 0 ==> rc <= n && Text(old(buffer[off..]), n, 0) == Some(buffer[off..off + rc])
    ensures forall k :: 0 <= k < buffer.Length && !(off <= k <= off + n) ==> buffer[k] == old(buffer[k])
  {
    InPlaceIsText(buffer[off..], n, 0, 0);
    var outside;
    rc, outside := UnescapeInto(buffer, off, n, buffer, off, n);
  }
}
