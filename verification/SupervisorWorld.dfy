/** The world around the supervisor as its code meets it, and what its loops make of the
    control blocks while that world goes on. */
module SupervisorWorld {
  import opened CText
  import opened Supervision
  import opened SupervisionLaws

  const SIGTERM := 15

  /** Things that happen by themselves. One that cannot happen changes nothing: only an
      unreaped child exits, only an unused process id is adopted. */
  datatype Happening = Tick(seconds: nat) | Exit(pid: int) | Adoption(pid: int) | StopSignal(signal: nat) | ReloadSignal

  function After(s: State, h: Happening): State {
    match h
    case Tick(seconds) => s.(now := s.now + seconds)
    case Exit(pid) => if pid in s.kids || pid in s.orphans then s.(dead := s.dead + {pid}) else s
    case Adoption(pid) =>
      if pid > 0 && pid !in s.kids && pid !in s.orphans then s.(orphans := s.orphans + {pid}) else s
    case StopSignal(signal) => if signal > 0 then s.(stop := signal) else s
    case ReloadSignal => s.(stop := SIGTERM, reload := true)
  }

  function AfterAll(s: State, hs: seq<Happening>): State
    decreases |hs|
  {
    if hs == [] then s else AfterAll(After(s, hs[0]), hs[1..])
  }

  predicate Alarms(h: Happening) {
    (h.StopSignal? && h.signal > 0) || h.ReloadSignal?
  }

  /** No stop signal among them. */
  ghost predicate NoAlarm(hs: seq<Happening>) {
    forall k :: 0 <= k < |hs| ==> !Alarms(hs[k])
  }

  /** A stop signal stays until it is looked at. */
  lemma {:induction false} StopStaysSet(s: State, hs: seq<Happening>)
    requires s.stop >= 0
    ensures AfterAll(s, hs).stop != 0 <==> s.stop != 0 || !NoAlarm(hs)
    decreases |hs|
  {
    if hs != [] {
      var m := After(s, hs[0]);
      StopStaysSet(m, hs[1..]);
      if NoAlarm(hs[1..]) && !Alarms(hs[0]) {
        assert forall k :: 0 < k < |hs| ==> hs[k] == hs[1..][k - 1];
      } else if !NoAlarm(hs[1..]) {
        var k :| 0 <= k < |hs[1..]| && Alarms(hs[1..][k]);
        assert hs[k + 1] == hs[1..][k];
      }
    }
  }

  /** Any number of them is one step of the world. */
  lemma {:induction false} HappeningsAreEnv(s: State, hs: seq<Happening>)
    requires GoodOs(s.kids, s.orphans, s.dead, s.stop)
    ensures EnvStep(s, AfterAll(s, hs))
    decreases |hs|
  {
    if hs != [] {
      var m := After(s, hs[0]);
      HappeningsAreEnv(m, hs[1..]);
      var e := AfterAll(s, hs);
      assert s.orphans <= m.orphans <= e.orphans && s.dead <= m.dead <= e.dead;
    }
  }

  /** A fork that is said to give an id in use gives none; any other outcome stands. */
  function Admitted(o: SpawnResult, used: set<int>): SpawnResult {
    if o.Forked? && (o.pid <= 0 || o.pid in used) then ForkFailed else o
  }

  /** The ids in use at each turn of a loop that spawns: those of the children and orphans
      at its start, and no more than those at its end. */
  ghost predicate InUse(used: seq<set<int>>, atStart: set<int>, atEnd: set<int>) {
    forall k :: 0 <= k < |used| ==> atStart <= used[k] <= atEnd
  }

  lemma NoneUsed(atStart: set<int>)
    ensures InUse([], atStart, atStart)
  {
  }

  lemma UsedMore(used: seq<set<int>>, atStart: set<int>, before: set<int>, now: set<int>, atEnd: set<int>)
    requires InUse(used, atStart, before) && atStart <= before <= now <= atEnd
    ensures InUse(used + [now], atStart, atEnd)
  {
  }

  /** The time and the stop signal at the start and at the end of a stretch of code. */
  datatype Window = Window(from: int, to: int, stopBefore: int, stopAfter: int)

  ghost predicate Wider(w: Window, v: Window) {
    v.from <= w.from <= w.to <= v.to && v.stopBefore == w.stopBefore && (w.stopAfter != 0 ==> v.stopAfter != 0)
  }

  /** The two loops that spawn: at startup, and over the restarts due at a time. */
  datatype Loop = Startup | Restarts(time: int)

  predicate Takes(loop: Loop, a: Scb, stop: int) {
    match loop
    case Startup => a.desired
    case Restarts(time) => Due(a, stop, time)
  }

  function Attempt(loop: Loop, a: Scb, o: SpawnResult, t: int): Scb {
    match loop
    case Startup => Booted(a, o, t)
    case Restarts(_) => Respawned(Cleared(a), o, t)
  }

  /** A control block after its turn. */
  function Taken(loop: Loop, a: Scb, stop: int, o: SpawnResult, t: int): Scb {
    if Takes(loop, a, stop) then Attempt(loop, a, o, t) else a
  }

  ghost predicate AttemptedAt(loop: Loop, a: Scb, b: Scb, o: SpawnResult, w: Window, t: int) {
    w.from <= t <= w.to && b == Attempt(loop, a, o, t)
  }

  /** One control block before and after its turn: an attempt is made exactly when the
      loop takes it; a stop signal that arrives meanwhile keeps restarts from being taken. */
  ghost predicate Turn(loop: Loop, a: Scb, b: Scb, o: SpawnResult, w: Window) {
    if !Takes(loop, a, w.stopBefore) then b == a
    else (loop.Restarts? && w.stopAfter != 0 && b == a) || exists t :: AttemptedAt(loop, a, b, o, w, t)
  }

  /** The first n control blocks had their turn, the others did not; used has the ids in
      use at each turn. */
  ghost predicate Turns(loop: Loop, was: seq<Scb>, apps: seq<Scb>, outcomes: seq<SpawnResult>,
                        used: seq<set<int>>, w: Window) {
    && |used| <= |apps| == |was| == |outcomes|
    && (forall k :: 0 <= k < |used| ==> Turn(loop, was[k], apps[k], Admitted(outcomes[k], used[k]), w))
    && (forall k :: |used| <= k < |apps| ==> apps[k] == was[k])
  }

  lemma NoTurns(loop: Loop, apps: seq<Scb>, outcomes: seq<SpawnResult>, w: Window)
    requires |apps| == |outcomes|
    ensures Turns(loop, apps, apps, outcomes, [], w)
  {
  }

  lemma TurnWidens(loop: Loop, a: Scb, b: Scb, o: SpawnResult, w: Window, v: Window)
    requires Turn(loop, a, b, o, w) && Wider(w, v)
    ensures Turn(loop, a, b, o, v)
  {
    hide Takes, Attempt;
    if t :| AttemptedAt(loop, a, b, o, w, t) { assert AttemptedAt(loop, a, b, o, v, t); }
  }

  lemma TurnsWiden(loop: Loop, was: seq<Scb>, apps: seq<Scb>, outcomes: seq<SpawnResult>, used: seq<set<int>>,
                   w: Window, v: Window)
    requires Turns(loop, was, apps, outcomes, used, w) && Wider(w, v)
    ensures Turns(loop, was, apps, outcomes, used, v)
  {
    hide Turn, Admitted;
    forall k | 0 <= k < |used| ensures Turn(loop, was[k], apps[k], Admitted(outcomes[k], used[k]), v) {
      TurnWidens(loop, was[k], apps[k], Admitted(outcomes[k], used[k]), w, v);
    }
  }

  /** The next one has its turn, now. */
  lemma TurnsMore(loop: Loop, was: seq<Scb>, apps: seq<Scb>, outcomes: seq<SpawnResult>, used: seq<set<int>>,
                  w: Window, now: set<int>)
    requires Turns(loop, was, apps, outcomes, used, w) && |used| < |apps| == |outcomes|
    requires w.from <= w.to && (w.stopBefore != 0 ==> w.stopAfter != 0)
    ensures var n := |used|;
      Turns(loop, was, apps[n := Taken(loop, apps[n], w.stopAfter, Admitted(outcomes[n], now), w.to)], outcomes,
            used + [now], w)
  {
    hide Turn, Takes, Attempt, Taken, Admitted;
    var n := |used|;
    TurnNow(loop, was[n], Admitted(outcomes[n], now), w);
  }

  lemma TurnNow(loop: Loop, a: Scb, o: SpawnResult, w: Window)
    requires w.from <= w.to && (w.stopBefore != 0 ==> w.stopAfter != 0)
    ensures Turn(loop, a, Taken(loop, a, w.stopAfter, o, w.to), o, w)
  {
    hide Attempt;
    if Takes(loop, a, w.stopAfter) { assert AttemptedAt(loop, a, Taken(loop, a, w.stopAfter, o, w.to), o, w, w.to); }
  }

  /** The outcome that counts: a fork gives no process id that is in use. */
  function Counts(o: SpawnResult, used: set<int>): SpawnResult {
    match o
    case Forked(pid, _, _, _) => if pid > 0 && pid !in used then o else ForkFailed
    case _ => o
  }

  ghost predicate TriedWithin(b: Scb, o: SpawnResult, again: bool, from: int, to: int) {
    exists t :: from <= t <= to && Tried(b, o, again, t)
  }

  /** What a restart pass at a time makes of an application: it is tried if it was pending
      and due, unless a stop signal came. */
  ghost predicate RestartedRight(a: Scb, b: Scb, o: SpawnResult, time: int, to: int, stopBefore: int, stop: int) {
    if a.pending && a.restartAt <= time && stopBefore == 0 then
      (stop != 0 && b == a) || TriedWithin(b, o, true, time, to)
    else b == a
  }

  /** What the startup loop makes of an application. */
  ghost predicate BootedRight(a: Scb, b: Scb, o: SpawnResult, from: int, to: int) {
    if a.autostart then TriedWithin(b, o, a.autorestart, from, to) else b == a
  }

  lemma RestartsRight(was: seq<Scb>, apps: seq<Scb>, outcomes: seq<SpawnResult>, used: seq<set<int>>, w: Window)
    requires Turns(Restarts(w.from), was, apps, outcomes, used, w) && |used| == |was| && AllGood(was)
    ensures forall k :: 0 <= k < |was| ==>
      RestartedRight(was[k], apps[k], Counts(outcomes[k], used[k]), w.from, w.to, w.stopBefore, w.stopAfter)
  {
    hide Turn, RestartedRight, Counts, Admitted, GoodScb;
    forall k | 0 <= k < |was|
      ensures RestartedRight(was[k], apps[k], Counts(outcomes[k], used[k]), w.from, w.to, w.stopBefore, w.stopAfter)
    {
      AdmittedCounts(outcomes[k], used[k]);
      RestartRight(was[k], apps[k], Counts(outcomes[k], used[k]), w);
    }
  }

  lemma AdmittedCounts(o: SpawnResult, used: set<int>)
    ensures Admitted(o, used) == Counts(o, used)
  {
  }

  lemma RestartRight(a: Scb, b: Scb, o: SpawnResult, w: Window)
    requires Turn(Restarts(w.from), a, b, o, w) && GoodScb(a)
    ensures RestartedRight(a, b, o, w.from, w.to, w.stopBefore, w.stopAfter)
  {
    if t :| AttemptedAt(Restarts(w.from), a, b, o, w, t) {
      assert Tried(Attempt(Restarts(w.from), a, o, t), o, true, t);
    }
  }

  lemma BootsRight(was: seq<Scb>, apps: seq<Scb>, outcomes: seq<SpawnResult>, used: seq<set<int>>, w: Window)
    requires Turns(Startup, was, apps, outcomes, used, w) && |used| == |was| && AllInitial(was, 0)
    ensures forall k :: 0 <= k < |was| ==> BootedRight(was[k], apps[k], Counts(outcomes[k], used[k]), w.from, w.to)
  {
    hide Turn, BootedRight, Counts, Admitted;
    forall k | 0 <= k < |was| ensures BootedRight(was[k], apps[k], Counts(outcomes[k], used[k]), w.from, w.to) {
      AdmittedCounts(outcomes[k], used[k]);
      assert IsInitial(was[k]);
      BootRight(was[k], apps[k], Counts(outcomes[k], used[k]), w);
    }
  }

  lemma BootRight(a: Scb, b: Scb, o: SpawnResult, w: Window)
    requires Turn(Startup, a, b, o, w) && IsInitial(a)
    ensures BootedRight(a, b, o, w.from, w.to)
  {
    if t :| AttemptedAt(Startup, a, b, o, w, t) { assert Tried(Attempt(Startup, a, o, t), o, a.autorestart, t); }
  }

  ghost predicate ReapedAt(a: Scb, b: Scb, w: Window, stop: int, t: int) {
    && w.from <= t <= w.to && (w.stopAfter == 0 ==> stop == 0) && (w.stopBefore != 0 ==> stop != 0)
    && b == Reaped(a, stop, t)
  }

  /** One control block before and after some processes were waited for. */
  ghost predicate Waited(a: Scb, b: Scb, pids: set<int>, w: Window) {
    if a.running && a.pid in pids then exists stop, t :: ReapedAt(a, b, w, stop, t) else b == a
  }

  ghost predicate AllWaited(was: seq<Scb>, apps: seq<Scb>, pids: set<int>, w: Window) {
    |apps| == |was| && forall k :: 0 <= k < |apps| ==> Waited(was[k], apps[k], pids, w)
  }

  lemma NoneWaited(apps: seq<Scb>, w: Window)
    ensures AllWaited(apps, apps, {}, w)
  {
  }

  lemma WaitedWidens(was: seq<Scb>, apps: seq<Scb>, pids: set<int>, w: Window, v: Window)
    requires AllWaited(was, apps, pids, w) && Wider(w, v)
    ensures AllWaited(was, apps, pids, v)
  {
    hide Reaped;
    forall k | 0 <= k < |apps| ensures Waited(was[k], apps[k], pids, v) {
      if was[k].running && was[k].pid in pids {
        var stop, t :| ReapedAt(was[k], apps[k], w, stop, t);
        assert ReapedAt(was[k], apps[k], v, stop, t);
      }
    }
  }

  /** One control block after one more wait, now. */
  function WaitedNow(a: Scb, pid: int, w: Window): Scb {
    if a.running && a.pid == pid then Reaped(a, w.stopAfter, w.to) else a
  }

  lemma WaitedMore(was: seq<Scb>, apps: seq<Scb>, more: seq<Scb>, pids: set<int>, pid: int, w: Window)
    requires AllWaited(was, apps, pids, w) && w.from <= w.to && (w.stopBefore != 0 ==> w.stopAfter != 0)
    requires |more| == |apps| && forall k :: 0 <= k < |apps| ==> more[k] == WaitedNow(apps[k], pid, w)
    ensures AllWaited(was, more, pids + {pid}, w)
  {
    forall k | 0 <= k < |apps| ensures Waited(was[k], more[k], pids + {pid}, w) {
      assert Waited(was[k], apps[k], pids, w);
      WaitedOne(was[k], apps[k], pids, pid, w);
    }
  }

  lemma WaitedOne(a: Scb, b: Scb, pids: set<int>, pid: int, w: Window)
    requires Waited(a, b, pids, w) && w.from <= w.to && (w.stopBefore != 0 ==> w.stopAfter != 0)
    ensures Waited(a, WaitedNow(b, pid, w), pids + {pid}, w)
  {
    if a.running && a.pid in pids {
      var stop, t :| ReapedAt(a, b, w, stop, t);
      assert ReapedAt(a, WaitedNow(b, pid, w), w, stop, t);
    } else if a.running && a.pid == pid {
      assert ReapedAt(a, WaitedNow(b, pid, w), w, w.stopAfter, w.to);
    }
  }

  /** An application after waiting: down if its process was waited for, and then tried
      again one clock second later if it is wanted, restarts by itself and no stop signal
      came. */
  ghost predicate WaitedRight(a: Scb, b: Scb, pids: set<int>, w: Window) {
    if a.running && a.pid in pids then
      && !b.running && !b.outOpen && !b.errOpen && b.desired == a.desired
      && (a.desired && a.autorestart && w.stopAfter == 0 ==> b.pending && w.from + 1 <= b.restartAt <= w.to + 1)
      && (b.pending ==> a.desired && a.autorestart && w.stopBefore == 0)
    else b == a
  }

  lemma AllWaitedRight(was: seq<Scb>, apps: seq<Scb>, pids: set<int>, w: Window)
    requires AllWaited(was, apps, pids, w) && AllGood(was)
    ensures forall k :: 0 <= k < |was| ==> WaitedRight(was[k], apps[k], pids, w)
  {
    forall k | 0 <= k < |was| ensures WaitedRight(was[k], apps[k], pids, w) {
      assert GoodScb(was[k]) && Waited(was[k], apps[k], pids, w);
    }
  }

  /** Only a running application can hold the id of an exited child, and only one does. */
  lemma OnlyOwner(s: State, pid: int)
    requires Inv(s) && pid in s.dead
    ensures pid > 0
    ensures forall k :: 0 <= k < |s.apps| && s.apps[k].pid == pid ==> s.apps[k].running
    ensures forall j, k :: 0 <= j < k < |s.apps| && s.apps[j].pid == pid ==> s.apps[k].pid != pid
  {
    forall k | 0 <= k < |s.apps| && s.apps[k].pid == pid ensures s.apps[k].running { assert GoodScb(s.apps[k]); }
  }

  predicate IsOpen(a: Scb, out: bool) {
    if out then a.outOpen else a.errOpen
  }

  /** Streams of the control blocks were closed, and nothing else changed. */
  ghost predicate OnlyClosed(was: seq<Scb>, apps: seq<Scb>) {
    |apps| == |was| && forall k :: 0 <= k < |apps| ==> ClosedSome(was[k], apps[k])
  }

  predicate ClosedSome(a: Scb, b: Scb) {
    b == a.(outOpen := b.outOpen, errOpen := b.errOpen) && (b.outOpen ==> a.outOpen) && (b.errOpen ==> a.errOpen)
  }

  lemma ClosedMore(was: seq<Scb>, apps: seq<Scb>, i: nat, out: bool)
    requires OnlyClosed(was, apps) && i < |apps|
    ensures OnlyClosed(was, apps[i := if out then apps[i].(outOpen := false) else apps[i].(errOpen := false)])
  {
  }

  lemma NoneClosed(apps: seq<Scb>)
    ensures OnlyClosed(apps, apps)
  {
  }

  lemma EmptyOrNot(s: set<int>)
    ensures s == {} || exists p :: p in s
  {
    if !(exists p :: p in s) { assert s == {}; }
  }

  /** The process ids of the running applications, in order. */
  function RunningPids(apps: seq<Scb>): seq<int> {
    if apps == [] then [] else RunningPids(Pop(apps)) + if Last(apps).running then [Last(apps).pid] else []
  }

  /** They are the own children. */
  lemma RunningPidsAreKids(s: State, p: int)
    requires Inv(s)
    ensures p in RunningPids(s.apps) <==> p in s.kids
  {
    RunningPidsOwned(s.apps, p);
    if p in s.kids { assert Owned(s.apps, p); }
  }

  lemma {:induction false} RunningPidsOwned(apps: seq<Scb>, p: int)
    ensures p in RunningPids(apps) <==> exists i :: 0 <= i < |apps| && Owns(apps[i], p)
    decreases |apps|
  {
    if apps != [] {
      RunningPidsOwned(Pop(apps), p);
      if i :| 0 <= i < |Pop(apps)| && Owns(Pop(apps)[i], p) { assert Owns(apps[i], p); }
      if i :| 0 <= i < |apps| && Owns(apps[i], p) {
        if i < |apps| - 1 { assert Owns(Pop(apps)[i], p); }
      }
      if Owns(Last(apps), p) { assert Owns(apps[|apps| - 1], p); }
    }
  }

  datatype Reply =
    | MissingName | NotFound | AlreadyRunning | StartedWith(pid: int) | FailedToStart | AlreadyStopped | Stopping

  /** The first index of a name. */
  function FirstNamed(names: seq<string>, name: string): (i: nat)
    requires name in names
    ensures i < |names| && names[i] == name && forall k :: 0 <= k < i ==> names[k] != name
  {
    if names[0] == name then 0 else FirstNamed(names[1..], name) + 1
  }

  lemma FirstIs(names: seq<string>, name: string, i: nat)
    requires i < |names| && names[i] == name && forall k :: 0 <= k < i ==> names[k] != name
    ensures name in names && FirstNamed(names, name) == i
  {
  }
}
