/** An output stream of an application: its pipe is read, its lines are prefixed, and
    its bytes go to a rotated file and to a passthrough descriptor. */
module AppLogging {
  import opened CText
  import opened Rotator
  import opened RotatedFiles
  import opened Prefixing
  import opened ReadSplits
  import G = GrowableBuffer

  /** One turn of the writing loop: a chunk up to the first line end past the limit, or
      all that is left, and a rotation after it when the file has reached the limit. */
  function Written(r: int, f: Files, chunk: string): Files
    requires chunk != ""
  {
    var w := f.current + chunk;
    if r > 0 && |w| >= r && Last(chunk) == '\n' then Files(f.done + [w], "") else Files(f.done, w)
  }

  /** A line end at k, when the file then is longer than the limit. */
  predicate PastLimit(r: int, size: int, s: string, k: nat)
    requires k < |s|
  {
    s[k] == '\n' && size + k + 1 > r
  }

  ghost predicate ChunkRule(r: int, f: Files, rest: string, n: nat) {
    && 0 < n <= |rest|
    && (r > 0 ==> forall k :: 0 <= k < n - 1 ==> !PastLimit(r, |f.current|, rest, k))
    && (n < |rest| ==> r > 0 && PastLimit(r, |f.current|, rest, n - 1))
  }

  /** One turn of the loop agrees with the byte-at-a-time rotator. */
  lemma ChunkStep(r: int, f: Files, rest: string, n: nat)
    requires ChunkRule(r, f, rest, n)
    ensures n == |rest| ==> Written(r, f, rest[..n]) == WriteBuffer(r, f, rest)
    ensures n < |rest| ==> WriteBuffer(r, Written(r, f, rest[..n]), rest[n..]) == WriteBuffer(r, f, rest)
  {
    var chunk := rest[..n];
    var front := Pop(chunk);
    forall k | 0 <= k < |front| && front[k] == '\n' ensures r <= 0 || |f.current| + k + 1 <= r {
      assert r > 0 ==> !PastLimit(r, |f.current|, rest, k);
    }
    StreamAppends(r, f, front);
    assert f.current + front + [Last(chunk)] == f.current + chunk;
    if n < |rest| {
      assert rest == chunk + rest[n..];
      BufferAppend(r, f, chunk, rest[n..]);
      assert Stream(r, f, chunk) == Written(r, f, chunk);
    } else {
      assert rest == chunk;
    }
  }

  /** What a read of the pipe returns. */
  datatype Read = Data(bytes: string) | Eof | WouldBlock | Interrupted | Broken

  /** The k-th read is the first that finds the pipe empty, closed or broken. */
  ghost predicate StopsAt(results: seq<Read>, k: nat) {
    && k < |results| && (results[k].Eof? || results[k].WouldBlock? || results[k].Broken?)
    && forall j :: 0 <= j < k ==> results[j].Data? || results[j].Interrupted?
  }

  /** What the first k reads brought, in order. */
  ghost function DataOf(results: seq<Read>, k: nat): seq<string>
    requires k <= |results|
  {
    if k == 0 then []
    else DataOf(results, k - 1) + if results[k - 1].Data? then [results[k - 1].bytes] else []
  }

  /** The files, the passthrough and the line state of a stream. */
  datatype View = View(files: Files, shown: string, line: LineState)

  class OutputStream {
    const rotateSize: int
    const rotateCount: int
    const hasFile: bool
    const hasPassthrough: bool
    /** The prefix of the n-th line, when lines are prefixed. */
    const prefixOf: Option<nat -> string>

    var pipeOpen: bool
    var disk: Disk
    var bytesWritten: int
    var passthrough: string
    var prefixAtLineStart: bool
    var linesStarted: nat

    /** The disk when the stream was opened, and what it showed then. */
    ghost const start: Disk
    ghost const began: View
    /** The files rotated out since, and the reads taken by all the drains so far. */
    ghost var done: seq<string>
    ghost var taken: seq<string>

    ghost predicate Valid()
      reads this
    {
      && (hasFile ==> 0 in disk && bytesWritten == |disk[0]| && Rotations(start, rotateCount, done, disk[0 := ""]))
      && (!hasFile ==> bytesWritten == 0)
    }

    /** Between drains the stream is what all the reads since its opening make of it. */
    ghost predicate Tracked()
      reads this
    {
      && Valid() && After(Now(), began, taken)
      && began == View(if hasFile then Files([], if 0 in start then start[0] else "") else Files([], ""), "", FRESH)
    }

    ghost function TheFiles(): Files
      requires Valid() && hasFile
      reads this
    {
      Files(done, disk[0])
    }

    ghost function Line(): LineState
      reads this
    {
      LineState(prefixAtLineStart, linesStarted)
    }

    /** Opening appends to an existing file, or creates one. */
    constructor (disk: Disk, rotateSize: int, rotateCount: int, hasFile: bool, hasPassthrough: bool,
                 prefixOf: Option<nat -> string>)
      ensures Tracked() && pipeOpen && taken == []
      ensures this.rotateSize == rotateSize && this.rotateCount == rotateCount && this.start == disk
      ensures this.hasFile == hasFile && this.hasPassthrough == hasPassthrough && this.prefixOf == prefixOf
      ensures hasFile ==> this.disk == if 0 in disk then disk else disk[0 := ""]
    {
      this.rotateSize, this.rotateCount, this.hasFile := rotateSize, rotateCount, hasFile;
      this.hasPassthrough, this.prefixOf := hasPassthrough, prefixOf;
      start, done, passthrough, pipeOpen, taken := disk, [], "", true, [];
      prefixAtLineStart, linesStarted := true, 0;
      this.disk := if hasFile && 0 !in disk then disk[0 := ""] else disk;
      bytesWritten := if hasFile && 0 in disk then |disk[0]| else 0;
      began := View(if hasFile then Files([], if 0 in disk then disk[0] else "") else Files([], ""), "", FRESH);
      new;
      NothingTaken(Now());
    }

    /** write until all is written; each write takes at least one byte. */
    method WriteFile(data: string)
      requires Valid() && hasFile
      modifies this`disk, this`bytesWritten
      ensures Valid() && TheFiles() == Files(done, old(disk[0]) + data)
    {
      var written := 0;
      assert disk[0] + data[..0] == disk[0];
      while written < |data|
        invariant 0 <= written <= |data| && Valid() && disk[0] == old(disk[0]) + data[..written]
      {
        var n: nat :| 1 <= n <= |data| - written;
        assert data[..written + n] == data[..written] + data[written..written + n];
        assert disk[0] + data[written..written + n] == old(disk[0]) + data[..written + n];
        assert disk[0 := disk[0] + data[written..written + n]][0 := ""] == disk[0 := ""];
        disk := disk[0 := disk[0] + data[written..written + n]];
        written, bytesWritten := written + n, bytesWritten + n;
      }
      assert data[..|data|] == data;
    }

    method WritePassthrough(data: string)
      modifies this`passthrough
      ensures passthrough == old(passthrough) + data
    {
      var written := 0;
      while written < |data|
        invariant 0 <= written <= |data| && passthrough == old(passthrough) + data[..written]
      {
        var n: nat :| 1 <= n <= |data| - written;
        assert data[..written + n] == data[..written] + data[written..written + n];
        passthrough := passthrough + data[written..written + n];
        written := written + n;
      }
    }

    method RotateFile()
      requires Valid() && hasFile
      modifies this`disk, this`bytesWritten, this`done
      ensures Valid() && TheFiles() == Files(old(done) + [old(disk[0])], "")
      ensures Shifted(old(disk), rotateCount, disk)
    {
      var shifted := Rotate(disk, rotateCount);
      OneRotation(start, rotateCount, done, disk, shifted);
      done := done + [disk[0]];
      disk, bytesWritten := shifted, 0;
    }

    /** The index after the first line end at or past from, or 0. */
    method FindLineEnd(rest: string, from: nat) returns (n: nat)
      ensures n <= |rest| && (n > 0 ==> from < n && rest[n - 1] == '\n')
      ensures forall k :: from <= k < (if n > 0 then n - 1 else |rest|) ==> rest[k] != '\n'
    {
      var i := from;
      while i < |rest|
        invariant from <= i && forall k :: from <= k < i && k < |rest| ==> rest[k] != '\n'
      {
        if rest[i] == '\n' { return i + 1; }
        i := i + 1;
      }
      return 0;
    }

    /** The size of the next chunk. */
    method ChunkSize(rest: string) returns (n: nat)
      requires Valid() && rest != ""
      ensures 0 < n <= |rest| && (hasFile ==> ChunkRule(rotateSize, TheFiles(), rest, n))
    {
      n := |rest|;
      if rotateSize > 0 && bytesWritten + n > rotateSize {
        var threshold := if bytesWritten < rotateSize then rotateSize - bytesWritten else 0;
        var m := FindLineEnd(rest, threshold);
        if m > 0 { n := m; }
      }
    }

    method WriteRaw(buffer: string)
      requires Valid()
      modifies this`disk, this`bytesWritten, this`done, this`passthrough
      ensures Valid()
      ensures hasFile ==> TheFiles() == WriteBuffer(rotateSize, old(TheFiles()), buffer)
      ensures passthrough == if hasPassthrough then old(passthrough) + buffer else old(passthrough)
    {
      var written := 0;
      while written < |buffer|
        invariant 0 <= written <= |buffer| && Valid()
        invariant hasFile && written < |buffer| ==>
          WriteBuffer(rotateSize, TheFiles(), buffer[written..]) == WriteBuffer(rotateSize, old(TheFiles()), buffer)
        invariant hasFile && written == |buffer| ==> TheFiles() == WriteBuffer(rotateSize, old(TheFiles()), buffer)
        invariant passthrough == if hasPassthrough then old(passthrough) + buffer[..written] else old(passthrough)
      {
        ghost var rest := buffer[written..];
        var n := WriteChunk(buffer[written..]);
        assert rest[n..] == buffer[written + n..];
        assert buffer[..written + n] == buffer[..written] + rest[..n];
        written := written + n;
      }
      assert buffer[..|buffer|] == buffer;
    }

    /** One turn of the loop. */
    method WriteChunk(rest: string) returns (n: nat)
      requires Valid() && rest != ""
      modifies this`disk, this`bytesWritten, this`done, this`passthrough
      ensures Valid() && 0 < n <= |rest|
      ensures hasFile && n == |rest| ==> TheFiles() == WriteBuffer(rotateSize, old(TheFiles()), rest)
      ensures hasFile && n < |rest| ==>
        WriteBuffer(rotateSize, TheFiles(), rest[n..]) == WriteBuffer(rotateSize, old(TheFiles()), rest)
      ensures passthrough == if hasPassthrough then old(passthrough) + rest[..n] else old(passthrough)
    {
      hide WriteBuffer, Rotations;
      n := ChunkSize(rest);
      if hasFile {
        ChunkStep(rotateSize, TheFiles(), rest, n);
        WriteFile(rest[..n]);
      }
      if hasPassthrough { WritePassthrough(rest[..n]); }
      if rotateSize > 0 && bytesWritten >= rotateSize && rest[n - 1] == '\n' { RotateFile(); }
    }

    /** One byte into the buffer that grows, behind its prefix if it starts a line. */
    method PrefixByte(supply: nat -> string, c: char, result: G.Growable)
      requires result.Valid()
      modifies this`prefixAtLineStart, this`linesStarted, result, result.data
      ensures result.Valid() && (result.data == old(result.data) || fresh(result.data))
      ensures result.Contents() == old(result.Contents()) + (Lead(supply, old(Line())) + [c])
      ensures Line() == LineState(c == '\n', old(linesStarted) + if old(prefixAtLineStart) then 1 else 0)
    {
      hide result.Valid, result.Contents;
      ghost var was := result.Contents();
      assert was + "" + [c] == was + ("" + [c]);
      if prefixAtLineStart {
        result.Append(supply(linesStarted));
        prefixAtLineStart, linesStarted := false, linesStarted + 1;
        assert was + supply(old(linesStarted)) + [c] == was + (supply(old(linesStarted)) + [c]);
      }
      result.Append([c]);
      if c == '\n' { prefixAtLineStart := true; }
    }

    /** Prefixing one buffer, byte by byte. */
    method PrefixBuffer(supply: nat -> string, buffer: string) returns (out: string)
      modifies this`prefixAtLineStart, this`linesStarted
      ensures out == Prefixed(supply, old(Line()), buffer) && Line() == StateAfter(old(Line()), buffer)
    {
      hide Lead, Prefixed, StateAfter;
      NoByte(supply, Line());
      var result := new G.Growable(256);
      for i := 0 to |buffer|
        invariant fresh(result) && result.Valid() && (result.data == null || fresh(result.data))
        invariant result.Contents() == Prefixed(supply, old(Line()), buffer[..i])
        invariant Line() == StateAfter(old(Line()), buffer[..i])
      {
        OneByte(supply, old(Line()), buffer, i);
        PrefixByte(supply, buffer[i], result);
      }
      assert buffer[..|buffer|] == buffer;
      out := result.Finish();
    }

    method Write(buffer: string)
      requires Valid()
      modifies this`disk, this`bytesWritten, this`done, this`passthrough, this`prefixAtLineStart, this`linesStarted
      ensures Valid() && Line() == LineAfter(old(Line()), buffer)
      ensures hasFile ==> TheFiles() == WriteBuffer(rotateSize, old(TheFiles()), Shown(old(Line()), buffer))
      ensures passthrough == if hasPassthrough then old(passthrough) + Shown(old(Line()), buffer) else old(passthrough)
    {
      hide WriteBuffer, Rotations, Prefixed, StateAfter;
      var out := buffer;
      if prefixOf.Some? { out := PrefixBuffer(prefixOf.value, buffer); }
      WriteRaw(out);
    }

    /** What a read of the stream is shown as, and the line state after it. */
    ghost function Shown(line: LineState, buffer: string): string {
      if prefixOf.Some? then Prefixed(prefixOf.value, line, buffer) else buffer
    }

    ghost function LineAfter(line: LineState, buffer: string): LineState {
      if prefixOf.Some? then StateAfter(line, buffer) else line
    }

    ghost function AllShown(line: LineState, buffers: seq<string>): seq<string> {
      if prefixOf.Some? then PrefixAll(prefixOf.value, line, buffers) else buffers
    }

    lemma ShownMore(line: LineState, buffers: seq<string>, b: string)
      ensures AllShown(line, buffers + [b]) == AllShown(line, buffers) + [Shown(LineAfter(line, Concat(buffers)), b)]
      ensures LineAfter(line, Concat(buffers + [b])) == LineAfter(LineAfter(line, Concat(buffers)), b)
    {
      var all := buffers + [b];
      assert Pop(all) == buffers && all[..|all| - 1] == buffers;
      if prefixOf.Some? { PrefixAppend(prefixOf.value, line, Concat(buffers), b); }
    }

    lemma WriteMore(f: Files, parts: seq<string>, b: string)
      ensures WriteAll(rotateSize, f, parts + [b]) == WriteBuffer(rotateSize, WriteAll(rotateSize, f, parts), b)
      ensures Concat(parts + [b]) == Concat(parts) + b
    {
      assert (parts + [b])[..|parts + [b]| - 1] == parts;
    }

    /** The stream after some reads: its files, passthrough and line state. */
    ghost predicate After(v: View, was: View, buffers: seq<string>) {
      && (hasFile ==> v.files == WriteAll(rotateSize, was.files, AllShown(was.line, buffers)))
      && (hasPassthrough ==> v.shown == was.shown + Concat(AllShown(was.line, buffers)))
      && (hasFile || hasPassthrough ==> v.line == LineAfter(was.line, Concat(buffers)))
    }

    ghost function Now(): View
      reads this
    {
      View(if hasFile && 0 in disk then Files(done, disk[0]) else Files([], ""), passthrough, Line())
    }

    method WriteNext(b: string, ghost was: View, ghost buffers: seq<string>)
      requires Valid() && After(Now(), was, buffers)
      modifies this`disk, this`bytesWritten, this`done, this`passthrough, this`prefixAtLineStart, this`linesStarted
      ensures Valid() && After(Now(), was, buffers + [b])
    {
      hide WriteBuffer, Rotations, Prefixed, StateAfter, WriteAll, Concat, AllShown, Shown, LineAfter;
      ghost var parts := AllShown(was.line, buffers);
      ShownMore(was.line, buffers, b);
      WriteMore(was.files, parts, Shown(Line(), b));
      Write(b);
      assert was.shown + Concat(parts) + Shown(old(Line()), b) == was.shown + (Concat(parts) + Shown(old(Line()), b));
    }

    /** Draining: results holds what the successive reads of the pipe return. They join
        the reads of all earlier drains, up to the first that finds no data; the pipe stays
        open when it was only empty for now. */
    method Drain(results: seq<Read>)
      requires Tracked() && exists k: nat :: StopsAt(results, k)
      modifies this`disk, this`bytesWritten, this`done, this`passthrough
      modifies this`prefixAtLineStart, this`linesStarted, this`pipeOpen, this`taken
      ensures Tracked()
      ensures old(pipeOpen) ==> exists k: nat ::
        StopsAt(results, k) && taken == old(taken) + DataOf(results, k) && pipeOpen == results[k].WouldBlock?
      ensures !old(pipeOpen) ==> !pipeOpen && taken == old(taken) && Now() == old(Now())
    {
      hide Rotations, After;
      if !pipeOpen { return; }
      ghost var end: nat :| StopsAt(results, end);
      var i := 0;
      while results[i].Data? || results[i].Interrupted?
        invariant 0 <= i <= end && Tracked() && pipeOpen
        invariant taken == old(taken) + DataOf(results, i)
        decreases end - i
      {
        if results[i].Data? {
          ghost var b := results[i].bytes;
          if hasFile || hasPassthrough { WriteNext(results[i].bytes, began, taken); }
          NoSinks(Now(), began, taken + [b]);
          taken := taken + [b];
        }
        i := i + 1;
      }
      assert StopsAt(results, i);
      if !results[i].WouldBlock? { pipeOpen := false; }
    }

    lemma NothingTaken(v: View)
      ensures After(v, v, [])
    {
      NothingShown(v.line, v.files);
      assert v.shown + "" == v.shown;
    }

    lemma NoSinks(v: View, was: View, buffers: seq<string>)
      ensures !hasFile && !hasPassthrough ==> After(v, was, buffers)
    {
    }

    /** The prefix of each line; none without a prefix format. */
    ghost function Supply(): nat -> string {
      if prefixOf.Some? then prefixOf.value else NO_PREFIX
    }

    lemma ShownIsPrefixed(line: LineState, buffers: seq<string>)
      ensures AllShown(line, buffers) == PrefixAll(Supply(), line, buffers)
    {
      if prefixOf.None? { NonePrefixed(line, buffers); }
    }

    /** The whole pipeline, over all the reads since the stream was opened. With a
        passthrough, that received the stream, each line behind its prefix. With a file,
        the files hold what the file held and then the same bytes; every rotated file ends
        a line at or past the limit; every file begun by a rotation is empty or begins with
        a whole prefix; and the slots hold the newest of them first. */
    lemma Pipeline()
      requires Tracked()
      ensures hasPassthrough ==> passthrough == Prefixed(Supply(), FRESH, Concat(taken))
      ensures hasFile ==> (
        && Flat(TheFiles()) == Flat(began.files) + Prefixed(Supply(), FRESH, Concat(taken))
        && bytesWritten == |TheFiles().current|
        && Grown(rotateSize, began.files, TheFiles())
        && (PrefixesAreOneLine(Supply()) ==>
              AllLed(Supply(), 0, TheFiles(), StateAfter(FRESH, Concat(taken)).atStart))
        && NewestFirst(start, rotateCount, done, disk[0 := ""]))
    {
      hide WriteAll, PrefixAll, Prefixed, StateAfter, Concat, Flat, Grown, AllLed, Rotations, NewestFirst, AllShown;
      ShownIsPrefixed(FRESH, taken);
      PrefixSplit(Supply(), FRESH, taken);
      assert "" + Prefixed(Supply(), FRESH, Concat(taken)) == Prefixed(Supply(), FRESH, Concat(taken));
      if hasFile { FilesHold(); }
    }

    lemma FilesHold()
      requires Tracked() && hasFile
      ensures Flat(TheFiles()) == Flat(began.files) + Prefixed(Supply(), FRESH, Concat(taken))
      ensures Grown(rotateSize, began.files, TheFiles())
      ensures PrefixesAreOneLine(Supply()) ==>
        AllLed(Supply(), 0, TheFiles(), StateAfter(FRESH, Concat(taken)).atStart)
      ensures NewestFirst(start, rotateCount, done, disk[0 := ""])
    {
      hide WriteAll, PrefixAll, Prefixed, StateAfter, Concat, Flat, Grown, AllLed, Rotations, NewestFirst, AllShown;
      ShownIsPrefixed(FRESH, taken);
      PrefixSplit(Supply(), FRESH, taken);
      Conservation(rotateSize, began.files, PrefixAll(Supply(), FRESH, taken));
      FilesGrow(rotateSize, began.files, PrefixAll(Supply(), FRESH, taken));
      if PrefixesAreOneLine(Supply()) { BegunFilesAreLed(Supply(), rotateSize, began.files, FRESH, taken); }
      RotationsKeepNewest(start, rotateCount, done, disk[0 := ""]);
    }

    /** How the stream was cut into reads and drains made no difference, if no line of the
        output ends at the limit before its end. */
    lemma ReadsDoNotMatter(size: nat)
      requires Tracked() && hasFile && AreReads(taken, size)
      requires NoneHits(rotateSize, began.files, Supply(), FRESH, Concat(taken))
      ensures TheFiles() == WriteBuffer(rotateSize, began.files, Prefixed(Supply(), FRESH, Concat(taken)))
    {
      hide WriteAll, PrefixAll, Prefixed, Concat, WriteBuffer, NoneHits, AllShown;
      ShownIsPrefixed(FRESH, taken);
      ReadsAgree(rotateSize, began.files, Supply(), FRESH, taken, size);
    }

    lemma NothingShown(line: LineState, f: Files)
      ensures AllShown(line, []) == [] && Concat([]) == "" && LineAfter(line, "") == line
      ensures WriteAll(rotateSize, f, []) == f
    {
    }
  }

  lemma OneRotation(start: Disk, count: int, done: seq<string>, d: Disk, e: Disk)
    requires 0 in d && Rotations(start, count, done, d[0 := ""]) && Shifted(d, count, e)
    ensures Rotations(start, count, done + [d[0]], e[0 := ""])
  {
    var more, g := done + [d[0]], d[0 := ""];
    assert Pop(more) == done && g[0 := Last(more)] == d && e[0 := ""] == e;
  }
}
