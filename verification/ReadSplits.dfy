/** Whether it matters how an output stream is cut into the reads of its pipe. */
module ReadSplits {
  import opened CText
  import opened Rotator
  import opened Prefixing

  /** What one read of the pipe can return: at least one byte, at most the buffer. */
  ghost predicate AreReads(chunks: seq<string>, size: nat) {
    forall k :: 0 <= k < |chunks| ==> 1 <= |chunks[k]| <= size
  }

  /** After k bytes of the stream a line ends exactly at the limit. */
  predicate HitsAfter(r: int, f: Files, supply: nat -> string, st: LineState, s: string, k: int)
    requires 0 < k <= |s|
  {
    r > 0 && s[k - 1] == '\n' && |Stream(r, f, Prefixed(supply, st, s[..k])).current| == r
  }

  ghost predicate NoneHits(r: int, f: Files, supply: nat -> string, st: LineState, s: string) {
    forall k :: 0 < k < |s| ==> !HitsAfter(r, f, supply, st, s, k)
  }

  lemma PrefixedEnds(supply: nat -> string, st: LineState, s: string)
    requires s != ""
    ensures Prefixed(supply, st, s) != "" && Last(Prefixed(supply, st, s)) == Last(s)
  {
  }

  /** Where no line ends at the limit, the end of a buffer makes no difference. */
  lemma BufferOpen(r: int, f: Files, w: string)
    requires w != "" && !(r > 0 && Last(w) == '\n' && |Stream(r, f, w).current| == r)
    ensures WriteBuffer(r, f, w) == Stream(r, f, w)
  {
  }

  lemma ReadOpen(r: int, f: Files, supply: nat -> string, st: LineState, s: string, k: nat)
    requires 0 < k <= |s| && !HitsAfter(r, f, supply, st, s, k)
    ensures WriteBuffer(r, f, Prefixed(supply, st, s[..k])) == Stream(r, f, Prefixed(supply, st, s[..k]))
  {
    hide Stream, WriteBuffer, Prefixed;
    PrefixedEnds(supply, st, s[..k]);
    BufferOpen(r, f, Prefixed(supply, st, s[..k]));
  }

  /** A hit depends on the bytes before it only. */
  lemma HitsBefore(r: int, f: Files, supply: nat -> string, st: LineState, s: string, n: nat, k: nat)
    requires 0 < k <= n <= |s|
    ensures HitsAfter(r, f, supply, st, s[..n], k) <==> HitsAfter(r, f, supply, st, s, k)
  {
    assert s[..n][..k] == s[..k];
  }

  /** Without hits, all the reads together are written like one. */
  lemma {:induction false} ReadsAgree(r: int, f: Files, supply: nat -> string, st: LineState, chunks: seq<string>,
                                      size: nat)
    requires AreReads(chunks, size) && NoneHits(r, f, supply, st, Concat(chunks))
    ensures WriteAll(r, f, PrefixAll(supply, st, chunks)) == WriteBuffer(r, f, Prefixed(supply, st, Concat(chunks)))
    decreases |chunks|
  {
    hide Stream, WriteBuffer, HitsAfter;
    if chunks == [] {
      NothingWritten(r, f, supply, st);
    } else {
      var a, b, s := Concat(Pop(chunks)), Last(chunks), Concat(chunks);
      assert s[..|a|] == a;
      forall k | 0 < k < |a| ensures !HitsAfter(r, f, supply, st, a, k) { HitsBefore(r, f, supply, st, s, |a|, k); }
      ReadsAgree(r, f, supply, st, Pop(chunks), size);
      PrefixAppend(supply, st, a, b);
      PrefixedEnds(supply, StateAfter(st, a), b);
      BufferAppend(r, f, Prefixed(supply, st, a), Prefixed(supply, StateAfter(st, a), b));
      if a != "" {
        HitsBefore(r, f, supply, st, s, |a|, |a|);
        ReadOpen(r, f, supply, st, a, |a|);
        assert a[..|a|] == a;
      } else {
        NothingWritten(r, f, supply, st);
      }
      PrefixAllMore(r, f, supply, st, chunks);
    }
  }

  lemma NothingWritten(r: int, f: Files, supply: nat -> string, st: LineState)
    ensures WriteAll(r, f, PrefixAll(supply, st, [])) == f && Concat([]) == ""
    ensures Prefixed(supply, st, "") == "" && WriteBuffer(r, f, "") == f && Stream(r, f, "") == f
  {
  }

  lemma PrefixAllMore(r: int, f: Files, supply: nat -> string, st: LineState, chunks: seq<string>)
    requires chunks != []
    ensures WriteAll(r, f, PrefixAll(supply, st, chunks))
         == WriteBuffer(r, WriteAll(r, f, PrefixAll(supply, st, Pop(chunks))),
                        Prefixed(supply, StateAfter(st, Concat(Pop(chunks))), Last(chunks)))
  {
    var all := PrefixAll(supply, st, chunks);
    assert all[..|all| - 1] == PrefixAll(supply, st, Pop(chunks));
  }

  /** Reads after reads. */
  lemma {:induction false} ReadsAfter(r: int, f: Files, supply: nat -> string, st: LineState, a: seq<string>,
                                      b: seq<string>)
    ensures WriteAll(r, f, PrefixAll(supply, st, a + b))
         == WriteAll(r, WriteAll(r, f, PrefixAll(supply, st, a)), PrefixAll(supply, StateAfter(st, Concat(a)), b))
    ensures Concat(a + b) == Concat(a) + Concat(b)
    decreases |b|
  {
    hide WriteAll, PrefixAll, WriteBuffer, Prefixed, StateAfter;
    if b == [] {
      assert a + b == a && Concat(a) + "" == Concat(a);
      NothingWritten(r, WriteAll(r, f, PrefixAll(supply, st, a)), supply, StateAfter(st, Concat(a)));
    } else {
      assert Pop(a + b) == a + Pop(b) && Last(a + b) == Last(b);
      ReadsAfter(r, f, supply, st, a, Pop(b));
      PrefixAllMore(r, f, supply, st, a + b);
      PrefixAllMore(r, WriteAll(r, f, PrefixAll(supply, st, a)), supply, StateAfter(st, Concat(a)), b);
      PrefixAppend(supply, st, Concat(a), Concat(Pop(b)));
      assert Concat(a) + Concat(Pop(b)) + Last(b) == Concat(a) + (Concat(Pop(b)) + Last(b));
    }
  }

  /** A text in pieces of at most the given size. */
  function Chop(s: string, size: nat): (chunks: seq<string>)
    requires size > 0
    ensures AreReads(chunks, size)
    decreases |s|
  {
    if |s| <= size then if s == "" then [] else [s]
    else Chop(s[..|s| - size], size) + [s[|s| - size..]]
  }

  lemma {:induction false} ChopJoins(s: string, size: nat)
    requires size > 0
    ensures Concat(Chop(s, size)) == s
    decreases |s|
  {
    if |s| <= size {
      if s != "" {
        assert Pop([s]) == [];
        assert "" + s == s;
      }
    } else {
      ChopJoins(s[..|s| - size], size);
      ConcatLast(Chop(s[..|s| - size], size), s[|s| - size..]);
    }
  }

  /** The n-th file is, or will be, longer than the limit. */
  ghost predicate Beyond(f: Files, n: nat, r: int) {
    (|f.done| == n && |f.current| > r) || (|f.done| > n && |f.done[n]| > r)
  }

  lemma BeyondStays(limit: int, f: Files, b: string, n: nat, r: int)
    requires Beyond(f, n, r)
    ensures Beyond(WriteBuffer(limit, f, b), n, r)
  {
    if b != "" {
      var g := Stream(limit, f, b[..|b| - 1]);
      StreamGrows(limit, f, b[..|b| - 1]);
      if |f.done| > n { assert g.done[n] == f.done[n]; }
    }
  }

  lemma {:induction false} BeyondStaysAll(limit: int, f: Files, chunks: seq<string>, n: nat, r: int)
    requires Beyond(f, n, r)
    ensures Beyond(WriteAll(limit, f, chunks), n, r)
    decreases |chunks|
  {
    hide Beyond, WriteBuffer;
    if chunks != [] {
      BeyondStaysAll(limit, f, Pop(chunks), n, r);
      BeyondStays(limit, WriteAll(limit, f, Pop(chunks)), Last(chunks), n, r);
    }
  }

  lemma {:induction false} DoneStays(limit: int, f: Files, chunks: seq<string>)
    ensures f.done <= WriteAll(limit, f, chunks).done
    decreases |chunks|
  {
    hide WriteBuffer;
    if chunks != [] {
      DoneStays(limit, f, Pop(chunks));
      BufferGrows(limit, WriteAll(limit, f, Pop(chunks)), Last(chunks));
    }
  }

  /** Cutting at the hit ends the file there. */
  lemma CutAtHit(r: int, f: Files, supply: nat -> string, st: LineState, s: string, k: nat, size: nat)
    returns (a: seq<string>)
    requires size > 0 && 0 < k < |s| && NoneHits(r, f, supply, st, s[..k]) && HitsAfter(r, f, supply, st, s, k)
    ensures AreReads(a, size) && Concat(a) == s
    ensures var g := Stream(r, f, Prefixed(supply, st, s[..k])); var x := WriteAll(r, f, PrefixAll(supply, st, a));
      |x.done| > |g.done| && x.done[|g.done|] == g.current && |g.current| == r
  {
    hide WriteAll, PrefixAll, Prefixed, StateAfter, Concat, Chop, Stream, WriteBuffer, NoneHits;
    var front, rest := Chop(s[..k], size), Chop(s[k..], size);
    a := front + rest;
    ChopJoins(s[..k], size);
    ChopJoins(s[k..], size);
    assert s[..k] + s[k..] == s;
    ReadsAfter(r, f, supply, st, front, rest);
    ReadsAgree(r, f, supply, st, front, size);
    var w := Prefixed(supply, st, s[..k]);
    PrefixedEnds(supply, st, s[..k]);
    var g := Stream(r, f, w);
    BufferCut(r, f, w);
    DoneStays(r, WriteBuffer(r, f, w), PrefixAll(supply, StateAfter(st, s[..k]), rest));
  }

  lemma BufferCut(r: int, f: Files, w: string)
    requires r > 0 && w != "" && Last(w) == '\n' && |Stream(r, f, w).current| == r
    ensures WriteBuffer(r, f, w) == Files(Stream(r, f, w).done + [Stream(r, f, w).current], "")
  {
  }

  /** Reading across the hit lets the file grow beyond the limit. */
  lemma ReadAcrossHit(r: int, f: Files, supply: nat -> string, st: LineState, s: string, k: nat, size: nat)
    returns (b: seq<string>)
    requires size > 1 && 0 < k < |s| && NoneHits(r, f, supply, st, s[..k]) && HitsAfter(r, f, supply, st, s, k)
    ensures AreReads(b, size) && Concat(b) == s
    ensures Beyond(WriteAll(r, f, PrefixAll(supply, st, b)), |Stream(r, f, Prefixed(supply, st, s[..k])).done|, r)
  {
    hide WriteAll, PrefixAll, Prefixed, StateAfter, Concat, Chop, Stream, WriteBuffer, Beyond;
    var front, two, rest := Chop(s[..k - 1], size), s[k - 1..k + 1], Chop(s[k + 1..], size);
    b := (front + [two]) + rest;
    ChopJoins(s[..k - 1], size);
    ChopJoins(s[k + 1..], size);
    ConcatLast(front, two);
    assert s[..k - 1] + two == s[..k + 1] && s[..k + 1] + s[k + 1..] == s;
    ReadsAfter(r, f, supply, st, front + [two], rest);
    var t := s[..k - 1];
    forall j | 0 < j < |t| ensures !HitsAfter(r, f, supply, st, t, j) {
      assert s[..k][..k - 1] == t;
      HitsBefore(r, f, supply, st, s[..k], k - 1, j);
    }
    ReadsAgree(r, f, supply, st, front, size);
    AcrossHit(r, f, supply, st, s, k);
    assert Pop(front + [two]) == front && Last(front + [two]) == two;
    PrefixAllMore(r, f, supply, st, front + [two]);
    BeyondStaysAll(r, WriteAll(r, f, PrefixAll(supply, st, front + [two])),
                   PrefixAll(supply, StateAfter(st, s[..k + 1]), rest),
                   |Stream(r, f, Prefixed(supply, st, s[..k])).done|, r);
  }

  /** The read that holds the byte before the hit and the byte after it. */
  lemma AcrossHit(r: int, f: Files, supply: nat -> string, st: LineState, s: string, k: nat)
    requires 0 < k < |s| && NoneHits(r, f, supply, st, s[..k]) && HitsAfter(r, f, supply, st, s, k)
    ensures Beyond(WriteBuffer(r, WriteBuffer(r, f, Prefixed(supply, st, s[..k - 1])),
                               Prefixed(supply, StateAfter(st, s[..k - 1]), s[k - 1..k + 1])),
                   |Stream(r, f, Prefixed(supply, st, s[..k])).done|, r)
  {
    hide Prefixed, StateAfter, Stream, WriteBuffer, Beyond;
    var a, two, c := s[..k - 1], s[k - 1..k + 1], s[k..k + 1];
    var w := Prefixed(supply, st, a);
    if a != "" {
      assert s[..k][..k - 1] == a;
      assert !HitsAfter(r, f, supply, st, s[..k], k - 1);
      ReadOpen(r, f, supply, st, s[..k], k - 1);
    } else {
      NothingWritten(r, f, supply, st);
    }
    PrefixAppend(supply, st, a, two);
    PrefixAppend(supply, st, s[..k], c);
    assert a + two == s[..k + 1] == s[..k] + c;
    PrefixedEnds(supply, StateAfter(st, a), two);
    PrefixedEnds(supply, StateAfter(st, s[..k]), c);
    BufferAppend(r, f, w, Prefixed(supply, StateAfter(st, a), two));
    BufferAppend(r, f, Prefixed(supply, st, s[..k]), Prefixed(supply, StateAfter(st, s[..k]), c));
    GrowsBeyond(r, Stream(r, f, Prefixed(supply, st, s[..k])), Prefixed(supply, StateAfter(st, s[..k]), c));
  }

  lemma GrowsBeyond(limit: int, g: Files, b: string)
    requires b != ""
    ensures Beyond(WriteBuffer(limit, g, b), |g.done|, |g.current|)
  {
    StreamGrows(limit, g, b[..|b| - 1]);
  }

  lemma {:induction false} FirstHit(r: int, f: Files, supply: nat -> string, st: LineState, s: string, n: nat)
    returns (k: nat)
    requires 0 < n < |s| && HitsAfter(r, f, supply, st, s, n)
    ensures 0 < k <= n && HitsAfter(r, f, supply, st, s, k) && NoneHits(r, f, supply, st, s[..k])
    decreases n
  {
    hide HitsAfter;
    k := n;
    if j :| 0 < j < n && HitsAfter(r, f, supply, st, s, j) {
      k := FirstHit(r, f, supply, st, s, j);
    } else {
      forall j | 0 < j < n ensures !HitsAfter(r, f, supply, st, s[..n], j) { HitsBefore(r, f, supply, st, s, n, j); }
    }
  }

  ghost predicate SameFiles(r: int, f: Files, supply: nat -> string, st: LineState, a: seq<string>, b: seq<string>) {
    WriteAll(r, f, PrefixAll(supply, st, a)) == WriteAll(r, f, PrefixAll(supply, st, b))
  }

  /** For reads of any sizes up to a buffer of at least two bytes, prefixed or not: all
      ways to read a stream give the same files exactly when no line of the output ends
      at the limit before the end of the stream. */
  lemma ReadSplitIndependence(r: int, f: Files, supply: nat -> string, st: LineState, s: string, size: nat)
    requires size > 1
    ensures NoneHits(r, f, supply, st, s) <==>
      (forall a, b :: AreReads(a, size) && AreReads(b, size) && Concat(a) == s && Concat(b) == s ==>
        SameFiles(r, f, supply, st, a, b))
  {
    hide HitsAfter, AreReads, Beyond;
    if NoneHits(r, f, supply, st, s) {
      forall a, b | AreReads(a, size) && AreReads(b, size) && Concat(a) == s && Concat(b) == s
        ensures SameFiles(r, f, supply, st, a, b)
      {
        ReadsAgree(r, f, supply, st, a, size);
        ReadsAgree(r, f, supply, st, b, size);
      }
    } else {
      var n :| 0 < n < |s| && HitsAfter(r, f, supply, st, s, n);
      var k := FirstHit(r, f, supply, st, s, n);
      var a := CutAtHit(r, f, supply, st, s, k, size);
      var b := ReadAcrossHit(r, f, supply, st, s, k, size);
      NotBoth(WriteAll(r, f, PrefixAll(supply, st, a)), Stream(r, f, Prefixed(supply, st, s[..k])), r);
      assert !SameFiles(r, f, supply, st, a, b);
    }
  }

  lemma NotBoth(x: Files, g: Files, r: int)
    requires |x.done| > |g.done| && x.done[|g.done|] == g.current && |g.current| == r
    ensures !Beyond(x, |g.done|, r)
  {
  }

  /** Without prefixes a read is written as it is. */
  const NO_PREFIX: nat -> string := n => ""

  lemma {:induction false} NotPrefixed(st: LineState, b: string)
    ensures Prefixed(NO_PREFIX, st, b) == b
    decreases |b|
  {
    hide StateAfter;
    if b != "" {
      NotPrefixed(st, Pop(b));
      assert Lead(NO_PREFIX, StateAfter(st, Pop(b))) + [Last(b)] == [Last(b)];
      assert Pop(b) + [Last(b)] == b;
    }
  }

  lemma {:induction false} NonePrefixed(st: LineState, chunks: seq<string>)
    ensures PrefixAll(NO_PREFIX, st, chunks) == chunks
    decreases |chunks|
  {
    hide Prefixed, StateAfter, Concat, PrefixAll;
    OnePrefixAll(NO_PREFIX, st, chunks);
    if chunks != [] {
      NonePrefixed(st, Pop(chunks));
      NotPrefixed(StateAfter(st, Concat(Pop(chunks))), Last(chunks));
      assert Pop(chunks) + [Last(chunks)] == chunks;
    }
  }

  /** One unfolding of the definition. */
  lemma OnePrefixAll(supply: nat -> string, st: LineState, chunks: seq<string>)
    ensures PrefixAll(supply, st, chunks) == if chunks == [] then [] else
      PrefixAll(supply, st, Pop(chunks)) + [Prefixed(supply, StateAfter(st, Concat(Pop(chunks))), Last(chunks))]
  {
    hide Prefixed, StateAfter, Concat;
  }
}
