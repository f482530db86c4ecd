/** The files of a rotated output on disk: slot 0 is the path itself, slot k "path.k". */
module RotatedFiles {
  import opened CText

  type Disk = map<nat, string>

  /** unlink */
  function Remove(d: Disk, k: nat): Disk {
    map j | j in d && j != k :: d[j]
  }

  /** rename: it replaces its target, and does nothing without a source. */
  function Rename(d: Disk, from: nat, to: nat): Disk {
    if from in d && from != to then Remove(d[to := d[from]], from) else d
  }

  /** Slot k of e is the slot n below it in d: both hold the same bytes, or neither exists. */
  ghost predicate Moved(e: Disk, k: nat, d: Disk, n: nat) {
    n <= k && (k in e <==> k - n in d) && (k in e ==> e[k] == d[k - n])
  }

  /** One rotation: every slot below the count moves up by one, the slot at the count is
      dropped, higher slots stay, and there is a new empty current file. */
  ghost predicate Shifted(d: Disk, count: int, e: Disk) {
    && 0 in e && e[0] == ""
    && (forall k: nat :: 1 <= k <= count ==> Moved(e, k, d, 1))
    && (forall k: nat :: 1 <= k && count < k ==> Moved(e, k, d, 0))
  }

  /** That leaves only one possible disk. */
  lemma ShiftedOnce(d: Disk, count: int, e: Disk, f: Disk)
    requires Shifted(d, count, e) && Shifted(d, count, f)
    ensures e == f
  {
    forall k: nat ensures Moved(e, k, f, 0) {
      if 1 <= k <= count {
        assert Moved(e, k, d, 1) && Moved(f, k, d, 1);
      } else if 1 <= k {
        assert Moved(e, k, d, 0) && Moved(f, k, d, 0);
      }
    }
    assert forall k: nat | k in e :: Moved(e, k, f, 0);
    assert forall k: nat | k in f :: Moved(e, k, f, 0);
  }

  /** The disk after some files were rotated out, oldest first: each was the current
      file when its turn came. */
  ghost predicate Rotations(d: Disk, count: int, done: seq<string>, e: Disk)
    decreases |done|
  {
    if done == [] then forall k: nat :: 1 <= k ==> Moved(e, k, d, 0)
    else exists g: Disk :: Rotations(d, count, Pop(done), g) && Shifted(g[0 := Last(done)], count, e)
  }

  /** Slots 1 to the count hold the most recent rotated files, newest first, then what
      older slots held before; with count 0 no rotated file is kept. */
  ghost predicate NewestFirst(d: Disk, count: int, done: seq<string>, e: Disk) {
    && (forall k: nat :: 1 <= k <= count && k <= |done| ==> Holds(e, k, done))
    && (forall k: nat :: |done| < k <= count ==> Moved(e, k, d, |done|))
    && (forall k: nat :: 1 <= k && count < k ==> Moved(e, k, d, 0))
  }

  /** Slot k holds the k-th newest of the rotated files. */
  ghost predicate Holds(d: Disk, k: nat, done: seq<string>) {
    1 <= k <= |done| && k in d && d[k] == done[|done| - k]
  }

  lemma {:induction false} RotationsKeepNewest(d: Disk, count: int, done: seq<string>, e: Disk)
    requires Rotations(d, count, done, e)
    ensures NewestFirst(d, count, done, e)
    decreases |done|
  {
    if done != [] {
      var g: Disk :| Rotations(d, count, Pop(done), g) && Shifted(g[0 := Last(done)], count, e);
      RotationsKeepNewest(d, count, Pop(done), g);
      OneMore(d, count, done, g, e);
    }
  }

  lemma OneMore(d: Disk, count: int, done: seq<string>, g: Disk, e: Disk)
    requires done != [] && NewestFirst(d, count, Pop(done), g) && Shifted(g[0 := Last(done)], count, e)
    ensures NewestFirst(d, count, done, e)
  {
    var n, h := |done|, g[0 := Last(done)];
    var front := Pop(done);
    forall k: nat | 1 <= k <= count && k <= n ensures Holds(e, k, done) {
      assert Moved(e, k, h, 1);
      if k > 1 { assert Holds(g, k - 1, front); }
    }
    forall k: nat | n < k <= count ensures Moved(e, k, d, n) {
      assert Moved(e, k, h, 1);
      assert Moved(g, k - 1, d, n - 1);
    }
    forall k: nat | 1 <= k && count < k ensures Moved(e, k, d, 0) {
      assert Moved(e, k, h, 0) && Moved(g, k, d, 0);
    }
  }

  /** The loop in progress: slots above i + 1 have moved up, slot i + 1 is free. */
  ghost predicate Moving(d: Disk, count: int, i: nat, e: Disk) {
    && i < count && i + 1 !in e
    && (forall k: nat :: k <= i ==> Moved(e, k, d, 0))
    && (forall k: nat :: i + 2 <= k <= count ==> Moved(e, k, d, 1))
    && (forall k: nat :: 1 <= k && count < k ==> Moved(e, k, d, 0))
  }

  lemma MoveOne(d: Disk, count: int, i: nat, e: Disk)
    requires i > 0 && Moving(d, count, i, e)
    ensures Moving(d, count, i - 1, Rename(e, i, i + 1))
  {
    var f := Rename(e, i, i + 1);
    assert Moved(e, i, d, 0);
    forall k: nat | k <= i - 1 ensures Moved(f, k, d, 0) { assert Moved(e, k, d, 0); }
    forall k: nat | i + 1 <= k <= count ensures Moved(f, k, d, 1) { if k > i + 1 { assert Moved(e, k, d, 1); } }
    forall k: nat | 1 <= k && count < k ensures Moved(f, k, d, 0) { assert Moved(e, k, d, 0); }
  }

  lemma MoveLast(d: Disk, count: int, e: Disk)
    requires Moving(d, count, 0, e)
    ensures 0 !in Rename(e, 0, 1) && Shifted(d, count, Rename(e, 0, 1)[0 := ""])
  {
    var f := Rename(e, 0, 1)[0 := ""];
    assert Moved(e, 0, d, 0);
    forall k: nat | 1 <= k <= count ensures Moved(f, k, d, 1) { if k > 1 { assert Moved(e, k, d, 1); } }
    forall k: nat | 1 <= k && count < k ensures Moved(f, k, d, 0) { assert Moved(e, k, d, 0); }
  }

  /** The renaming part of supervisor_rotate_output_stream, then the new file. */
  method Rotate(d: Disk, count: int) returns (e: Disk)
    ensures Shifted(d, count, e)
  {
    e := d;
    if count <= 0 {
      e := Remove(e, 0);
      return e[0 := ""];
    }
    e := Remove(e, count);
    var i := count - 1;
    while i >= 1
      invariant 0 <= i && Moving(d, count, i, e)
    {
      MoveOne(d, count, i, e);
      e := Rename(e, i, i + 1);
      i := i - 1;
    }
    MoveLast(d, count, e);
    e := Rename(e, 0, 1);
    return e[0 := ""];
  }
}
