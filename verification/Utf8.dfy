/** UTF-8 as RFC 3629 section 3 defines it, as a reference for the string decoder. */
module Utf8 {
  import opened CText

  predicate IsScalar(u: nat) {
    u < 0xD800 || 0xE000 <= u < 0x11_0000
  }

  function Byte(b: nat): (c: char)
    requires b < 256
    ensures c as int == b
  {
    b as char
  }

  /** The encoding of a scalar value: one to four octets. */
  function Octets(u: nat): (b: string)
    requires IsScalar(u)
    ensures IsBytes(b) && 1 <= |b| <= 4
  {
    if u < 0x80 then [Byte(u)]
    else if u < 0x800 then [Byte(0xC0 + u / 0x40), Byte(0x80 + u % 0x40)]
    else if u < 0x1_0000 then [Byte(0xE0 + u / 0x1000), Byte(0x80 + u / 0x40 % 0x40), Byte(0x80 + u % 0x40)]
    else [Byte(0xF0 + u / 0x4_0000), Byte(0x80 + u / 0x1000 % 0x40), Byte(0x80 + u / 0x40 % 0x40),
          Byte(0x80 + u % 0x40)]
  }

  predicate IsTail(c: char) {
    0x80 <= c as int < 0xC0
  }

  /** The scalar value a whole octet sequence stands for; overlong forms, surrogates
      and values beyond the last plane are refused. */
  function Utf8Value(b: string): Option<nat> {
    if |b| == 1 && b[0] as int < 0x80 then Some(b[0] as int)
    else if |b| == 2 && 0xC2 <= b[0] as int < 0xE0 && IsTail(b[1]) then
      Some((b[0] as int - 0xC0) * 0x40 + (b[1] as int - 0x80))
    else if |b| == 3 && 0xE0 <= b[0] as int < 0xF0 && IsTail(b[1]) && IsTail(b[2]) then
      var u := (b[0] as int - 0xE0) * 0x1000 + (b[1] as int - 0x80) * 0x40 + (b[2] as int - 0x80);
      if 0x800 <= u && IsScalar(u) then Some(u) else None
    else if |b| == 4 && 0xF0 <= b[0] as int < 0xF5 && IsTail(b[1]) && IsTail(b[2]) && IsTail(b[3]) then
      var u := (b[0] as int - 0xF0) * 0x4_0000 + (b[1] as int - 0x80) * 0x1000
               + (b[2] as int - 0x80) * 0x40 + (b[3] as int - 0x80);
      if 0x1_0000 <= u && IsScalar(u) then Some(u) else None
    else None
  }

  /** Splitting a number at a six-bit boundary. */
  lemma SixBits(u: nat)
    ensures u == u / 0x40 * 0x40 + u % 0x40
    ensures u / 0x1000 == u / 0x40 / 0x40 && u / 0x4_0000 == u / 0x40 / 0x40 / 0x40
  {
  }

  /** Reading back what the encoder writes gives the scalar value. */
  lemma OctetsRoundTrip(u: nat)
    requires IsScalar(u)
    ensures Utf8Value(Octets(u)) == Some(u)
  {
    SixBits(u);
    var v := u / 0x40;
    var w := v / 0x40;
    assert v == w * 0x40 + v % 0x40;
    assert w == w / 0x40 * 0x40 + w % 0x40;
    assert u / 0x1000 == w && u / 0x4_0000 == w / 0x40;
  }
}
