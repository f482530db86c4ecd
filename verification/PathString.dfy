/** edJSON_build_path_string: a path printed as "/name" and "[index]" parts. */
module PathString {
  import opened CText
  import opened JsonMachine
  import opened JsonParser
  import U = Unescape
  import D = StringDecoder

  /** What "%d" prints for a non-negative number. */
  function Decimal(k: nat): (s: string)
    ensures s != "" && forall j :: 0 <= j < |s| ==> IsDigit(s[j])
  {
    if k < 10 then [('0' as int + k) as char] else Decimal(k / 10) + [('0' as int + k % 10) as char]
  }

  function IndexText(k: nat): string {
    "[" + Decimal(k) + "]"
  }

  function ElementText(e: PathElement): Option<string> {
    match e
    case Index(k) => Some(IndexText(k))
    case Name(raw) => U.Joined("/", U.TextOf(raw))
  }

  /** The whole path as text, whatever its length. */
  function PathText(path: seq<PathElement>): Option<string> {
    if path == [] then Some("")
    else
      match ElementText(path[0])
      case None => None
      case Some(t) => U.Joined(t, PathText(path[1..]))
  }

  /** Overrun: a name fills the buffer, and the terminator of the decoder goes behind it. */
  datatype Built = Built(text: string) | Failed(rc: int) | Overrun

  /** One pass of the loop over the path, with done already in the buffer. */
  function AddElement(done: string, e: PathElement, size: nat): (r: Built)
    requires |done| < size
    ensures r.Built? ==> |r.text| < size
  {
    match e
    case Index(k) =>
      if |done| + |IndexText(k)| >= size then Failed(U.NO_MEMORY) else Built(done + IndexText(k))
    case Name(raw) =>
      if |done| + 1 == size then Failed(U.NO_INPUT)
      else
        match U.Decode(raw + "\"", |raw|, 0, 0, size - |done| - 1)
        case NoRoom => Failed(U.NO_MEMORY)
        case Malformed => Failed(U.BAD_STRING)
        case Decoded(b) => if |done| + 1 + |b| >= size then Overrun else Built(done + "/" + b)
  }

  function BuildPath(done: string, path: seq<PathElement>, size: nat): (r: Built)
    requires |done| < size
    ensures r.Built? ==> |r.text| < size
    decreases |path|
  {
    if path == [] then Built(done)
    else
      match AddElement(done, path[0], size)
      case Built(text) => BuildPath(text, path[1..], size)
      case stopped => stopped
  }

  /** The name fills what the buffer has left, with a last unit of one byte. */
  predicate Fills(done: string, e: PathElement, size: nat) {
    && e.Name? && |done| + 1 < size && U.TextOf(e.raw).Some? && |done| + 1 + |U.TextOf(e.raw).value| == size
    && U.EndsNarrow(e.raw + "\"", |e.raw|, 0)
  }

  lemma AddElementExact(done: string, e: PathElement, size: nat)
    requires |done| < size
    ensures AddElement(done, e, size).Built? <==> ElementText(e).Some? && |done| + |ElementText(e).value| < size
    ensures AddElement(done, e, size).Built? ==> AddElement(done, e, size).text == done + ElementText(e).value
    ensures AddElement(done, e, size).Overrun? <==> Fills(done, e, size)
  {
    hide U.Decode, U.Text, U.EndsNarrow;
    if e.Name? {
      if |done| + 1 < size {
        U.DecodeExact(e.raw + "\"", |e.raw|, 0, 0, size - |done| - 1);
        if U.TextOf(e.raw).Some? { assert done + "/" + U.TextOf(e.raw).value == done + ("/" + U.TextOf(e.raw).value); }
      }
    }
  }

  /** The codes an element can fail with: -1 for want of room, -2 when the slash before a
      name takes the last byte, -3 for a name that does not decode. */
  lemma FailureCodes(done: string, e: PathElement, size: nat)
    requires |done| < size && AddElement(done, e, size).Failed?
    ensures var rc := AddElement(done, e, size).rc;
      && (e.Index? ==> rc == -1)
      && (e.Name? && |done| + 1 == size ==> rc == -2)
      && (e.Name? && |done| + 1 < size && U.TextOf(e.raw).Some? ==> rc == -1)
      && (e.Name? && |done| + 1 < size && U.TextOf(e.raw).None? && |done| + 1 + |e.raw| <= size ==> rc == -3)
  {
    hide U.Decode, U.Text;
    if e.Name? && |done| + 1 < size { U.DecodeCode(e.raw + "\"", |e.raw|, 0, 0, size - |done| - 1); }
  }

  /** The bounded printer succeeds exactly when every name decodes and the whole text
      leaves room for its terminator, and then it prints the whole text. */
  lemma {:induction false} BuildExact(done: string, path: seq<PathElement>, size: nat)
    requires |done| < size
    ensures BuildPath(done, path, size).Built? <==> PathText(path).Some? && |done| + |PathText(path).value| < size
    ensures BuildPath(done, path, size).Built? ==> BuildPath(done, path, size).text == done + PathText(path).value
    decreases |path|
  {
    hide AddElement, ElementText;
    if path == [] {
      assert done + "" == done;
    } else {
      AddElementExact(done, path[0], size);
      if AddElement(done, path[0], size).Built? {
        var t := ElementText(path[0]).value;
        BuildExact(done + t, path[1..], size);
        if PathText(path[1..]).Some? {
          assert done + t + PathText(path[1..]).value == done + (t + PathText(path[1..]).value);
        }
      }
    }
  }

  /** The k-th element fills the buffer behind the ones before it. */
  ghost predicate FillsAt(done: string, path: seq<PathElement>, k: nat, size: nat) {
    k < |path| && PathText(path[..k]).Some? && Fills(done + PathText(path[..k]).value, path[k], size)
  }

  lemma FillsFirst(done: string, path: seq<PathElement>, size: nat)
    requires path != []
    ensures FillsAt(done, path, 0, size) <==> Fills(done, path[0], size)
  {
    hide Fills;
    assert path[..0] == [] && done + "" == done;
  }

  lemma FillsLater(done: string, path: seq<PathElement>, k: nat, size: nat)
    requires path != [] && ElementText(path[0]).Some?
    ensures FillsAt(done, path, k + 1, size) <==> FillsAt(done + ElementText(path[0]).value, path[1..], k, size)
  {
    hide Fills, ElementText;
    if k + 1 < |path| {
      var rest := path[1..];
      assert path[..k + 1][0] == path[0] && path[..k + 1][1..] == rest[..k] && rest[k] == path[k + 1];
      if PathText(rest[..k]).Some? {
        assert done + (ElementText(path[0]).value + PathText(rest[..k]).value)
            == done + ElementText(path[0]).value + PathText(rest[..k]).value;
      }
    }
  }

  /** Only behind elements that leave room can an element fill the buffer. */
  lemma LaterNeedsRoom(done: string, path: seq<PathElement>, k: nat, size: nat)
    requires path != [] && !(ElementText(path[0]).Some? && |done| + |ElementText(path[0]).value| < size)
    ensures !FillsAt(done, path, k + 1, size)
  {
    hide ElementText;
    if k + 1 < |path| { assert path[..k + 1][0] == path[0]; }
  }

  /** The terminator goes behind the buffer exactly when some name fills it. */
  lemma {:induction false} OverrunExact(done: string, path: seq<PathElement>, size: nat)
    requires |done| < size
    ensures BuildPath(done, path, size).Overrun? <==> exists k: nat :: FillsAt(done, path, k, size)
    decreases |path|
  {
    hide AddElement, ElementText, Fills, FillsAt;
    if path == [] {
      NothingFills(done, size);
    } else {
      var r := AddElement(done, path[0], size);
      AddElementExact(done, path[0], size);
      FillsFirst(done, path, size);
      if r.Built? {
        OverrunExact(r.text, path[1..], size);
        if k: nat :| FillsAt(r.text, path[1..], k, size) { FillsLater(done, path, k, size); }
        if k: nat :| FillsAt(done, path, k, size) && k > 0 { FillsLater(done, path, k - 1, size); }
      } else {
        forall k: nat | k > 0 ensures !FillsAt(done, path, k, size) { LaterNeedsRoom(done, path, k - 1, size); }
      }
    }
  }

  lemma NothingFills(done: string, size: nat)
    ensures forall k: nat :: !FillsAt(done, [], k, size)
  {
  }

  lemma {:induction false} ReadHexSame(src: string, alt: string, n: nat, si: nat, k: nat, x: nat)
    requires n < |src| && n < |alt| && forall j :: 0 <= j <= n ==> alt[j] == src[j]
    ensures U.ReadHex(alt, n, si, k, x) == U.ReadHex(src, n, si, k, x)
    decreases k
  {
    if k > 0 && si < n && IsHex(src[si]) { ReadHexSame(src, alt, n, si + 1, k - 1, 16 * x + U.HexValue(src[si])); }
  }

  lemma UnitSame(src: string, alt: string, n: nat, si: nat)
    requires si < n < |src| && n < |alt| && forall j :: 0 <= j <= n ==> alt[j] == src[j]
    ensures U.UnitAt(alt, n, si) == U.UnitAt(src, n, si)
  {
    hide U.ReadHex;
    if src[si] == '\\' && src[si + 1] == 'u' {
      ReadHexSame(src, alt, n, si + 2, 4, 0);
      var h := U.ReadHex(src, n, si + 2, 4, 0);
      if h.Hex? { ReadHexSame(src, alt, n, h.next + 2, 4, 0); }
    }
  }

  /** The decoder looks at the span and the one byte after it, nothing else. */
  lemma {:induction false} DecodeSame(src: string, alt: string, n: nat, si: nat, di: nat, limit: nat)
    requires n < |src| && n < |alt| && si <= n + 1 && forall j :: 0 <= j <= n ==> alt[j] == src[j]
    ensures U.Decode(alt, n, si, di, limit) == U.Decode(src, n, si, di, limit)
    decreases n + 1 - si
  {
    hide U.UnitAt, U.Encode;
    if si < n {
      UnitSame(src, alt, n, si);
      match U.UnitAt(src, n, si)
      case BadUnit =>
      case Plain(c, next) => DecodeSame(src, alt, n, next, di + 1, limit);
      case Code(u, next) => DecodeSame(src, alt, n, next, di + U.Width(u), limit);
    }
  }

  /** The index in brackets, cut to fit with its terminator. */
  method PrintIndex(dest: array<char>, off: nat, room: nat, k: nat) returns (rc: nat)
    requires off + room <= dest.Length
    modifies dest
    ensures rc == |IndexText(k)|
    ensures rc < room ==> dest[off..off + rc] == IndexText(k) && dest[off + rc] == '\0'
    ensures forall j :: 0 <= j < dest.Length && !(off <= j < off + room) ==> dest[j] == old(dest[j])
  {
    var t := IndexText(k);
    rc := |t|;
    if room == 0 { return; }
    var w := if rc < room then rc else room - 1;
    for j := 0 to w
      invariant dest[off..off + j] == t[..j]
      invariant forall j :: 0 <= j < dest.Length && !(off <= j < off + room) ==> dest[j] == old(dest[j])
    {
      dest[off + j] := t[j];
      assert dest[off..off + (j + 1)] == t[..j] + [t[j]] == t[..j + 1];
    }
    dest[off + w] := '\0';
  }

  /** A slot whose name is a span of the text, followed by a quote. */
  ghost predicate InText(text: string, slot: Slot) {
    slot.index >= 0 || (slot.value + slot.size < |text| && text[slot.value + slot.size] == '"')
  }

  function ElementOf(text: string, slot: Slot): PathElement
    requires slot.index >= 0 || slot.value + slot.size <= |text|
  {
    if slot.index >= 0 then Index(slot.index) else Name(text[slot.value..slot.value + slot.size])
  }

  function Code(b: Built): int {
    match b
    case Built(text) => |text|
    case Failed(rc) => rc
    case Overrun => U.NO_MEMORY
  }

  /** One pass for a name: a slash, then the name decoded straight into the buffer. */
  method AddName(dest: array<char>, size: nat, len: nat, json: array<char>, slot: Slot)
    returns (rc: int, outside: bool)
    requires dest != json && len < size <= dest.Length && slot.index < 0 && InText(json[..], slot)
    modifies dest
    ensures rc == Code(AddElement(old(dest[..len]), ElementOf(json[..], slot), size))
    ensures outside <==> AddElement(old(dest[..len]), ElementOf(json[..], slot), size).Overrun? && size == dest.Length
    ensures rc >= 0 ==> rc < size && dest[rc] == '\0'
    ensures rc >= 0 ==> AddElement(old(dest[..len]), ElementOf(json[..], slot), size) == Built(dest[..rc])
  {
    hide U.Decode;
    ghost var done := dest[..len];
    ghost var raw := json[slot.value..slot.value + slot.size];
    dest[len] := '/';
    DecodeSame(json[slot.value..], raw + "\"", slot.size, 0, 0, size - len - 1);
    rc, outside := D.UnescapeInto(dest, len + 1, size - len - 1, json, slot.value, slot.size);
    if rc < 0 { return; }
    assert dest[..len + 1 + rc] == done + "/" + dest[len + 1..len + 1 + rc];
    rc := len + 1 + rc;
    if rc >= size { rc := U.NO_MEMORY; }
  }

  /** The loop over the path; outside says that a terminator went behind the buffer. */
  method BuildPathString(dest: array<char>, size: nat, json: array<char>, path: seq<Slot>)
    returns (rc: int, outside: bool)
    requires dest != json && size <= dest.Length
    requires forall k :: 0 <= k < |path| ==> InText(json[..], path[k])
    requires forall k :: 0 <= k < |path| ==> path[k].index >= 0 || path[k].value + path[k].size <= json.Length
    modifies dest
    ensures size == 0 ==> rc == U.NO_INPUT && !outside
    ensures size > 0 ==> rc == Code(BuildPath("", SlotPath(old(json[..]), path), size))
    ensures size > 0 ==>
      (outside <==> BuildPath("", SlotPath(old(json[..]), path), size).Overrun? && size == dest.Length)
    ensures rc >= 0 ==> rc < size && BuildPath("", SlotPath(old(json[..]), path), size) == Built(dest[..rc])
    ensures rc >= 0 && path != [] ==> dest[rc] == '\0'
  {
    hide AddElement;
    if size == 0 { return U.NO_INPUT, false; }
    ghost var elements := SlotPath(json[..], path);
    SlotPathLength(json[..], path);
    var len: nat := 0;
    for i := 0 to |path|
      invariant 0 <= len < size && (i > 0 ==> dest[len] == '\0')
      invariant json[..] == old(json[..]) && elements == SlotPath(json[..], path) && |elements| == |path|
      invariant BuildPath("", elements, size) == BuildPath(dest[..len], elements[i..], size)
    {
      ghost var done := dest[..len];
      SlotPathAt(json[..], path, i);
      assert elements[i..][0] == elements[i] && elements[i..][1..] == elements[i + 1..];
      if path[i].index < 0 {
        rc, outside := AddName(dest, size, len, json, path[i]);
        if rc < 0 { return; }
        len := rc;
      } else {
        var n := PrintIndex(dest, len, size - len, path[i].index);
        IndexExact(done, path[i].index, size);
        if len + n >= size { return U.NO_MEMORY, false; }
        assert dest[..len + n] == done + dest[len..len + n];
        len := len + n;
      }
    }
    return len, false;
  }

  lemma IndexExact(done: string, k: nat, size: nat)
    requires |done| < size
    ensures AddElement(done, Index(k), size)
         == if |done| + |IndexText(k)| >= size then Failed(U.NO_MEMORY) else Built(done + IndexText(k))
  {
  }

  lemma {:induction false} SlotPathLength(text: string, path: seq<Slot>)
    requires forall k :: 0 <= k < |path| ==> path[k].index >= 0 || path[k].value + path[k].size <= |text|
    ensures |SlotPath(text, path)| == |path|
    decreases |path|
  {
    if path != [] { SlotPathLength(text, Pop(path)); }
  }

  lemma {:induction false} SlotPathAt(text: string, path: seq<Slot>, k: nat)
    requires forall k :: 0 <= k < |path| ==> path[k].index >= 0 || path[k].value + path[k].size <= |text|
    requires k < |path|
    ensures |SlotPath(text, path)| == |path| && SlotPath(text, path)[k] == ElementOf(text, path[k])
    decreases |path|
  {
    if |path| > 1 { SlotPathAt(text, Pop(path), if k < |path| - 1 then k else 0); }
  }
}
