/** When an output file is rotated out: the writing loop as a byte-at-a-time rotator. */
module Rotator {
  import opened CText

  /** The files rotated out so far, oldest first, and the current one. */
  datatype Files = Files(done: seq<string>, current: string)

  /** One byte. A line end past the size limit ends the file; a line end exactly at the
      limit ends it only when it is the last byte of the buffer at hand. */
  function Put(r: int, f: Files, c: char, last: bool): Files {
    var w := f.current + [c];
    if r > 0 && c == '\n' && (|w| > r || (last && |w| == r)) then Files(f.done + [w], "") else Files(f.done, w)
  }

  /** A stream without buffers. */
  function Stream(r: int, f: Files, s: string): Files
    decreases |s|
  {
    if s == "" then f else Put(r, Stream(r, f, s[..|s| - 1]), s[|s| - 1], false)
  }

  function WriteBuffer(r: int, f: Files, b: string): Files {
    if b == "" then f else Put(r, Stream(r, f, b[..|b| - 1]), b[|b| - 1], true)
  }

  /** A stream cut into buffers, one for each read. */
  function WriteAll(r: int, f: Files, buffers: seq<string>): Files
    decreases |buffers|
  {
    if buffers == [] then f
    else WriteBuffer(r, WriteAll(r, f, buffers[..|buffers| - 1]), buffers[|buffers| - 1])
  }

  /** Without a size limit there is one file. */
  lemma {:induction false} NeverRotated(r: int, f: Files, s: string)
    requires r <= 0
    ensures Stream(r, f, s) == WriteBuffer(r, f, s) == Files(f.done, f.current + s)
    decreases |s|
  {
    if s == "" {
      assert f.current + s == f.current;
    } else {
      NeverRotated(r, f, s[..|s| - 1]);
      assert s == s[..|s| - 1] + [s[|s| - 1]];
    }
  }

  ghost predicate NonEmpty(parts: seq<string>) {
    forall k :: 0 <= k < |parts| ==> parts[k] != ""
  }

  /** A line ends exactly at the limit after p bytes, and more follow. */
  predicate HitsAt(r: int, f: Files, s: string, p: int)
    requires 0 < p < |s|
  {
    r > 0 && s[p - 1] == '\n' && |Stream(r, f, s[..p]).current| == r
  }

  ghost predicate NoHits(r: int, f: Files, s: string) {
    forall p :: 0 < p < |s| ==> !HitsAt(r, f, s, p)
  }

  lemma {:induction false} StreamAppend(r: int, f: Files, a: string, b: string)
    ensures Stream(r, f, a + b) == Stream(r, Stream(r, f, a), b)
    decreases |b|
  {
    if b == "" {
      assert a + b == a;
    } else {
      assert (a + b)[..|a + b| - 1] == a + b[..|b| - 1];
      StreamAppend(r, f, a, b[..|b| - 1]);
    }
  }

  lemma BufferAppend(r: int, f: Files, a: string, b: string)
    requires b != ""
    ensures WriteBuffer(r, f, a + b) == WriteBuffer(r, Stream(r, f, a), b)
  {
    assert (a + b)[..|a + b| - 1] == a + b[..|b| - 1];
    StreamAppend(r, f, a, b[..|b| - 1]);
  }

  /** Without an exact hit at its end, a buffer is written as a stream. */
  lemma BufferIsStream(r: int, f: Files, s: string, p: int)
    requires 0 < p < |s| && !HitsAt(r, f, s, p)
    ensures WriteBuffer(r, f, s[..p]) == Stream(r, f, s[..p])
  {
    assert s[..p][..p - 1] == s[..p - 1];
  }

  lemma {:induction false} SplitAgrees(r: int, f: Files, buffers: seq<string>)
    requires NonEmpty(buffers) && NoHits(r, f, Concat(buffers))
    ensures WriteAll(r, f, buffers) == WriteBuffer(r, f, Concat(buffers))
    decreases |buffers|
  {
    if buffers != [] {
      var front, b := buffers[..|buffers| - 1], buffers[|buffers| - 1];
      var p, s := Concat(front), Concat(buffers);
      assert s[..|p|] == p;
      forall k | 0 < k < |p| ensures !HitsAt(r, f, p, k) {
        assert !HitsAt(r, f, s, k) && p[..k] == s[..k];
      }
      SplitAgrees(r, f, front);
      if p != "" { BufferIsStream(r, f, s, |p|); } else { assert p + b == b; }
      BufferAppend(r, f, p, b);
    }
  }

  /** Writing never takes back a file, and lengthens the current one or ends it. */
  lemma {:induction false} StreamGrows(r: int, f: Files, s: string)
    ensures f.done <= Stream(r, f, s).done
    ensures Stream(r, f, s).done == f.done ==> Stream(r, f, s).current == f.current + s
    ensures |Stream(r, f, s).done| > |f.done| ==> |Stream(r, f, s).done[|f.done|]| > |f.current|
    decreases |s|
  {
    if s == "" {
      assert f.current + s == f.current;
    } else {
      StreamGrows(r, f, s[..|s| - 1]);
      assert s == s[..|s| - 1] + [s[|s| - 1]];
    }
  }

  lemma BufferGrows(r: int, f: Files, b: string)
    ensures f.done <= WriteBuffer(r, f, b).done
    ensures b != "" && |WriteBuffer(r, f, b).done| > |f.done| ==> |WriteBuffer(r, f, b).done[|f.done|]| > |f.current|
  {
    if b != "" { StreamGrows(r, f, b[..|b| - 1]); }
  }

  /** Cutting the stream at an exact hit ends a file that otherwise grows longer. */
  lemma HitSplits(r: int, f: Files, s: string, p: int)
    requires 0 < p < |s| && HitsAt(r, f, s, p)
    ensures WriteAll(r, f, [s[..p], s[p..]]) != WriteBuffer(r, f, s)
  {
    var g := Stream(r, f, s[..p]);
    assert s[..p][..p - 1] == s[..p - 1];
    var h := Stream(r, f, s[..p - 1]);
    assert g == Put(r, h, s[p - 1], false);
    var cut := WriteBuffer(r, f, s[..p]);
    assert cut == Files(h.done + [h.current + [s[p - 1]]], "") && g == Files(h.done, h.current + [s[p - 1]]);
    TwoBuffers(r, f, s[..p], s[p..]);
    assert s == s[..p] + s[p..];
    BufferAppend(r, f, s[..p], s[p..]);
    BufferGrows(r, cut, s[p..]);
    BufferGrows(r, g, s[p..]);
    var one, two := WriteBuffer(r, g, s[p..]), WriteBuffer(r, cut, s[p..]);
    assert two.done[|g.done|] == cut.done[|g.done|] == g.current;
  }

  lemma TwoBuffers(r: int, f: Files, a: string, b: string)
    ensures WriteAll(r, f, [a, b]) == WriteBuffer(r, WriteBuffer(r, f, a), b)
    ensures Concat([a, b]) == a + b
  {
    assert [a, b][..1] == [a] && [a][..0] == [];
    assert WriteAll(r, f, [a]) == WriteBuffer(r, WriteAll(r, f, []), a);
    assert Concat([a]) == Concat([]) + a == a;
  }

  /** How the stream is cut into reads does not matter exactly when no line ends at the
      limit before the end of the stream. */
  lemma SplitIndependence(r: int, f: Files, s: string)
    ensures NoHits(r, f, s) <==>
      (forall buffers :: NonEmpty(buffers) && Concat(buffers) == s ==> WriteAll(r, f, buffers) == WriteBuffer(r, f, s))
  {
    hide WriteAll, WriteBuffer, Stream, HitsAt, Concat;
    if NoHits(r, f, s) {
      forall buffers | NonEmpty(buffers) && Concat(buffers) == s
        ensures WriteAll(r, f, buffers) == WriteBuffer(r, f, s)
      {
        SplitAgrees(r, f, buffers);
      }
    } else {
      var p :| 0 < p < |s| && HitsAt(r, f, s, p);
      HitSplits(r, f, s, p);
      TwoBuffers(r, f, s[..p], s[p..]);
      assert s == s[..p] + s[p..] && NonEmpty([s[..p], s[p..]]);
    }
  }

  function Flat(f: Files): string {
    Concat(f.done) + f.current
  }

  lemma PutFlat(r: int, f: Files, c: char, last: bool)
    ensures Flat(Put(r, f, c, last)) == Flat(f) + [c]
  {
    var w := f.current + [c];
    assert (f.done + [w])[..|f.done|] == f.done;
    assert Concat(f.done + [w]) + "" == Concat(f.done) + w;
  }

  lemma {:induction false} StreamFlat(r: int, f: Files, s: string)
    ensures Flat(Stream(r, f, s)) == Flat(f) + s
    decreases |s|
  {
    hide Flat;
    if s == "" {
      assert Flat(f) + s == Flat(f);
    } else {
      StreamFlat(r, f, s[..|s| - 1]);
      PutFlat(r, Stream(r, f, s[..|s| - 1]), s[|s| - 1], false);
      assert Flat(f) + s[..|s| - 1] + [s[|s| - 1]] == Flat(f) + s;
    }
  }

  /** Nothing is lost, added or reordered: the rotated files followed by the current
      one hold what they held before, followed by the stream. */
  lemma {:induction false} Conservation(r: int, f: Files, buffers: seq<string>)
    ensures Flat(WriteAll(r, f, buffers)) == Flat(f) + Concat(buffers)
    decreases |buffers|
  {
    hide Flat;
    if buffers == [] {
      assert Flat(f) + Concat(buffers) == Flat(f);
    } else {
      var front, b := buffers[..|buffers| - 1], buffers[|buffers| - 1];
      var g := WriteAll(r, f, front);
      Conservation(r, f, front);
      BufferFlat(r, g, b);
      assert Flat(f) + Concat(front) + b == Flat(f) + (Concat(front) + b);
    }
  }

  lemma BufferFlat(r: int, f: Files, b: string)
    ensures Flat(WriteBuffer(r, f, b)) == Flat(f) + b
  {
    hide Flat;
    if b == "" {
      assert Flat(f) + b == Flat(f);
    } else {
      StreamFlat(r, f, b[..|b| - 1]);
      PutFlat(r, Stream(r, f, b[..|b| - 1]), b[|b| - 1], true);
      assert Flat(f) + b[..|b| - 1] + [b[|b| - 1]] == Flat(f) + b;
    }
  }

  /** No line ends beyond the limit. */
  ghost predicate Short(r: int, w: string) {
    forall k :: 0 <= k < |w| && r <= k ==> w[k] != '\n'
  }

  /** A rotated file: it ends a line at or past the limit. */
  ghost predicate EndsLine(r: int, w: string) {
    w != "" && w[|w| - 1] == '\n' && |w| >= r
  }

  ghost predicate BegunShort(r: int, w: string) {
    w != "" && Short(r, w[..|w| - 1])
  }

  /** What g adds to f: files that end a line; only the first of them may have begun
      before f, and the others hold no earlier line end past the limit. */
  ghost predicate Grown(r: int, f: Files, g: Files) {
    && f.done <= g.done
    && (r <= 0 ==> g.done == f.done)
    && (forall k :: |f.done| <= k < |g.done| ==> EndsLine(r, g.done[k]))
    && (forall k :: |f.done| <= k < |g.done| && (k > |f.done| || Short(r, f.current)) ==> BegunShort(r, g.done[k]))
    && (r > 0 && (|g.done| > |f.done| || Short(r, f.current)) ==> Short(r, g.current))
  }

  lemma GrownTrans(r: int, f: Files, g: Files, h: Files)
    requires Grown(r, f, g) && Grown(r, g, h)
    ensures Grown(r, f, h)
  {
    hide EndsLine, BegunShort, Short;
    forall k | |f.done| <= k < |h.done| ensures EndsLine(r, h.done[k]) {
      if k < |g.done| { assert h.done[k] == g.done[k]; }
    }
    forall k | |f.done| <= k < |h.done| && (k > |f.done| || Short(r, f.current)) ensures BegunShort(r, h.done[k]) {
      if k < |g.done| { assert h.done[k] == g.done[k]; }
    }
  }

  lemma PutGrows(r: int, f: Files, c: char, last: bool)
    ensures Grown(r, f, Put(r, f, c, last))
  {
    var w := f.current + [c];
    assert w[..|w| - 1] == f.current;
  }

  lemma {:induction false} StreamGrown(r: int, f: Files, s: string)
    ensures Grown(r, f, Stream(r, f, s))
    decreases |s|
  {
    hide Put;
    if s == "" {
    } else {
      var g := Stream(r, f, s[..|s| - 1]);
      StreamGrown(r, f, s[..|s| - 1]);
      PutGrows(r, g, s[|s| - 1], false);
      GrownTrans(r, f, g, Stream(r, f, s));
    }
  }

  /** Over any run of reads, every rotated file ends with a line end at or past the
      limit, and in a file begun during the run no earlier line ends past it. */
  lemma {:induction false} FilesGrow(r: int, f: Files, buffers: seq<string>)
    ensures Grown(r, f, WriteAll(r, f, buffers))
    decreases |buffers|
  {
    hide Put, Grown;
    if buffers == [] {
      GrownSelf(r, f);
    } else {
      var front, b := buffers[..|buffers| - 1], buffers[|buffers| - 1];
      var g := WriteAll(r, f, front);
      FilesGrow(r, f, front);
      if b != "" {
        var h := Stream(r, g, b[..|b| - 1]);
        StreamGrown(r, g, b[..|b| - 1]);
        GrownTrans(r, f, g, h);
        PutGrows(r, h, b[|b| - 1], true);
        GrownTrans(r, f, h, WriteBuffer(r, g, b));
      }
    }
  }

  lemma GrownSelf(r: int, f: Files)
    ensures Grown(r, f, f)
  {
  }

  /** Where the line that holds byte k starts. */
  function LineStart(w: string, k: nat): (j: nat)
    requires k <= |w|
    ensures j <= k && (j > 0 ==> w[j - 1] == '\n') && (forall i :: j <= i < k ==> w[i] != '\n')
  {
    if k == 0 || w[k - 1] == '\n' then k else LineStart(w, k - 1)
  }

  /** So a file begun during the run exceeds the limit by less than its last line. */
  lemma RotatedSize(r: int, w: string)
    requires r > 0 && EndsLine(r, w) && BegunShort(r, w)
    ensures r <= |w| <= r + |w[LineStart(w, |w| - 1)..]|
  {
    var k := LineStart(w, |w| - 1);
    if k > 0 { assert w[..|w| - 1][k - 1] == '\n'; }
  }

  /** Bytes that end no line past the limit only lengthen the current file. */
  lemma {:induction false} StreamAppends(r: int, f: Files, s: string)
    requires forall k :: 0 <= k < |s| && s[k] == '\n' ==> r <= 0 || |f.current| + k + 1 <= r
    ensures Stream(r, f, s) == Files(f.done, f.current + s)
    decreases |s|
  {
    if s == "" {
      assert f.current + s == f.current;
    } else {
      StreamAppends(r, f, s[..|s| - 1]);
      assert f.current + s[..|s| - 1] + [s[|s| - 1]] == f.current + s;
    }
  }
}
