/** C strings and the character classes the sources test with strchr. */
module CText {
  datatype Option<+T> = None | Some(value: T)

  function Last<T>(s: seq<T>): T
    requires s != []
  {
    s[|s| - 1]
  }

  function Pop<T>(s: seq<T>): seq<T>
    requires s != []
  {
    s[..|s| - 1]
  }

  function Max(a: nat, b: nat): nat {
    if a < b then b else a
  }

  function Concat(parts: seq<string>): string
    decreases |parts|
  {
    if parts == [] then "" else Concat(Pop(parts)) + Last(parts)
  }

  lemma ConcatLast(parts: seq<string>, x: string)
    ensures Concat(parts + [x]) == Concat(parts) + x
  {
    assert Pop(parts + [x]) == parts;
  }

  lemma {:induction false} ConcatFirst(part: string, rest: seq<string>)
    ensures Concat([part] + rest) == part + Concat(rest)
    decreases |rest|
  {
    var all := [part] + rest;
    if rest == [] {
      assert Pop(all) == [] && Last(all) == part;
    } else {
      assert Pop(all) == [part] + Pop(rest) && Last(all) == Last(rest);
      ConcatFirst(part, Pop(rest));
    }
  }

  /** The byte does not occur. */
  ghost predicate Without(s: string, c: char) {
    forall k :: 0 <= k < |s| ==> s[k] != c
  }

  /** The bytes before the terminator of a C string. */
  ghost predicate IsCString(t: string) {
    forall k :: 0 <= k < |t| ==> t[k] != '\0'
  }

  /** A byte array read as a C string. */
  function Cut(s: string): (r: string)
    ensures |r| <= |s| && r == s[..|r|] && IsCString(r)
    ensures IsCString(s) ==> r == s
  {
    if s == "" || s[0] == '\0' then "" else [s[0]] + Cut(s[1..])
  }

  /** A byte string: every character is one byte. */
  ghost predicate IsBytes(t: string) {
    forall k :: 0 <= k < |t| ==> t[k] as int < 256
  }

  predicate IsDigit(c: char) {
    '0' <= c <= '9'
  }

  predicate IsHex(c: char) {
    '0' <= c <= '9' || 'a' <= c <= 'f' || 'A' <= c <= 'F'
  }

  /** t reads w at offset i. */
  ghost predicate Reads(t: string, i: nat, w: string) {
    i + |w| <= |t| && forall k :: 0 <= k < |w| ==> t[i + k] == w[k]
  }

  lemma ReadsSplit(t: string, i: nat, a: string, b: string)
    requires Reads(t, i, a + b)
    ensures Reads(t, i, a) && Reads(t, i + |a|, b)
  {
    forall k | 0 <= k < |a| ensures t[i + k] == a[k] {
      assert (a + b)[k] == a[k];
    }
    forall k | 0 <= k < |b| ensures t[i + |a| + k] == b[k] {
      assert (a + b)[|a| + k] == b[k];
    }
  }

  lemma ReadsDrop(t: string, i: nat, w: string, n: nat)
    requires Reads(t, i, w) && n <= |w|
    ensures Reads(t, i + n, w[n..])
  {
    forall k | 0 <= k < |w| - n ensures t[i + n + k] == w[n..][k] {
      assert t[i + (n + k)] == w[n + k];
    }
  }

  lemma ReadsSlice(t: string, i: nat, w: string)
    requires Reads(t, i, w)
    ensures t[i..i + |w|] == w
  {
  }

  lemma ReadsJoin(t: string, i: nat, a: string, b: string)
    requires Reads(t, i, a) && Reads(t, i + |a|, b)
    ensures Reads(t, i, a + b)
  {
    forall k | 0 <= k < |a + b| ensures t[i + k] == (a + b)[k] {
      if k >= |a| { assert t[i + |a| + (k - |a|)] == b[k - |a|]; }
    }
  }

  lemma ReadsItself(t: string, i: nat, j: nat)
    requires i <= j <= |t|
    ensures Reads(t, i, t[i..j])
  {
  }

  /** Between one byte and another. */
  lemma ReadsEnclosed(t: string, i: nat, a: string, w: string, b: string)
    requires |a| == |b| == 1 && Reads(t, i, a + (w + b))
    ensures i + 1 + |w| < |t| && t[i] == a[0] && Reads(t, i + 1, w) && t[i + 1 + |w|] == b[0]
  {
    ReadsSplit(t, i, a, w + b);
    ReadsSplit(t, i + 1, w, b);
    assert t[i + 0] == a[0] && t[i + 1 + |w| + 0] == b[0];
  }
}
