/** The supervisor as a step system: its control blocks, the operating system's
    processes, and every order in which they can act. */
module Supervision {
  import opened CText

  const RESTART_DELAY := 1

  /** A control block, with the two settings of its application that it acts on. */
  datatype Scb = Scb(autostart: bool, autorestart: bool, running: bool, desired: bool, pending: bool,
                     restartAt: int, startedAt: int, pid: int, outOpen: bool, errOpen: bool)

  /** Where the supervisor is: starting everything, restarting what is due (at the time
      it read), reaping, acting on a signal, serving at most one request, draining. After
      a signal was forwarded a pass is the last one, then the wind-down begins. */
  datatype Place =
    | Boot(i: nat)
    | Restarting(i: nat, time: int)
    | Reaping
    | Checking
    | Forwarding(i: nat, signal: int)
    | Serving(last: bool)
    | Draining(last: bool)
    | Winding
    | WindReaping
    | WindDraining
    | Finished
    | Exited

  /** kids: own children not yet reaped; orphans: adopted ones; dead: those that exited. */
  datatype State = State(place: Place, apps: seq<Scb>, kids: set<int>, orphans: set<int>, dead: set<int>,
                         now: int, stop: int, reload: bool)

  datatype SpawnResult = NotForked(closed: bool) | ForkFailed | Forked(pid: int, out: bool, err: bool, ok: bool)

  datatype Label =
    | Env
    | Move
    | Spawn(i: nat, o: SpawnResult)
    | Reap(pid: int)
    | Kill(i: nat)
    | Start(i: nat, o: SpawnResult)
    | StartRunning(i: nat)
    | Stop(i: nat)
    | CloseStream(i: nat, out: bool)
    | Reload(apps: seq<Scb>)

  function InitialScb(autostart: bool, autorestart: bool): Scb {
    Scb(autostart, autorestart, false, autostart, false, 0, 0, 0, false, false)
  }

  ghost predicate IsInitial(a: Scb) {
    a == InitialScb(a.autostart, a.autorestart)
  }

  /** supervisor_schedule_restart */
  function Scheduled(a: Scb, now: int): Scb {
    a.(pending := true, restartAt := now + RESTART_DELAY)
  }

  /** supervisor_spawn, as the parent sees it. */
  function Spawned(a: Scb, o: SpawnResult, now: int): Scb {
    match o
    case NotForked(closed) => if closed then a.(outOpen := false, errOpen := false) else a
    case ForkFailed => a.(running := false, pid := -1, startedAt := 0, outOpen := false, errOpen := false)
    case Forked(pid, out, err, _) => a.(running := true, pid := pid, startedAt := now, outOpen := out, errOpen := err)
  }

  /** A restart that fails to fork is scheduled again. */
  function Respawned(a: Scb, o: SpawnResult, now: int): Scb {
    if o.Forked? then Spawned(a, o, now) else Scheduled(Spawned(a, o, now), now)
  }

  function Booted(a: Scb, o: SpawnResult, now: int): Scb {
    if a.autorestart then Respawned(a, o, now) else Spawned(a, o, now)
  }

  function Cleared(a: Scb): Scb {
    a.(pending := false, restartAt := 0)
  }

  /** START of an application that is not running: unless it started, it is not wanted. */
  function Started(a: Scb, o: SpawnResult, now: int): Scb {
    var b := Spawned(Cleared(a.(desired := true)), o, now);
    if o.Forked? && o.ok then b else b.(desired := false)
  }

  function Stopped(a: Scb): Scb {
    Cleared(a.(desired := false))
  }

  function Reaped(a: Scb, stop: int, now: int): Scb {
    var b := a.(running := false, pid := 0, startedAt := 0, outOpen := false, errOpen := false);
    if a.autorestart && a.desired && stop == 0 then Scheduled(b, now) else b
  }

  /** Due in a restart pass that read the time before. */
  predicate Due(a: Scb, stop: int, time: int) {
    a.pending && !a.running && a.desired && a.autorestart && stop == 0 && a.restartAt <= time
  }

  predicate AnyRunning(apps: seq<Scb>) {
    exists i :: 0 <= i < |apps| && apps[i].running
  }

  predicate AnyStreamOpen(apps: seq<Scb>) {
    exists i :: 0 <= i < |apps| && (apps[i].outOpen || apps[i].errOpen)
  }

  /** fork returns a process id that no unreaped child has. */
  ghost predicate CanFork(s: State, o: SpawnResult) {
    o.Forked? ==> o.pid > 0 && o.pid !in s.kids && o.pid !in s.orphans
  }

  function Kids(s: State, o: SpawnResult): set<int> {
    if o.Forked? then s.kids + {o.pid} else s.kids
  }

  /** Time passes, children exit, orphans are adopted, signals arrive. */
  ghost predicate EnvStep(s: State, s': State) {
    && s' == s.(orphans := s'.orphans, dead := s'.dead, now := s'.now, stop := s'.stop, reload := s'.reload)
    && s.orphans <= s'.orphans && s'.orphans !! s.kids && (forall p | p in s'.orphans :: p > 0)
    && s.dead <= s'.dead && s'.dead <= s.kids + s'.orphans
    && s.now <= s'.now
    && (s'.stop == s.stop || s'.stop > 0)
    && (s'.reload == s.reload || (s'.reload && s'.stop > 0))
  }

  ghost predicate SpawnStep(s: State, i: nat, o: SpawnResult, s': State) {
    && i < |s.apps| && CanFork(s, o)
    && match s.place
       case Boot(j) =>
         j == i && s.apps[i].desired
         && s' == s.(place := Boot(i + 1), apps := s.apps[i := Booted(s.apps[i], o, s.now)], kids := Kids(s, o))
       case Restarting(j, t) =>
         j == i && Due(s.apps[i], s.stop, t)
         && s' == s.(place := Restarting(i + 1, t), kids := Kids(s, o),
                     apps := s.apps[i := Respawned(Cleared(s.apps[i]), o, s.now)])
       case _ => false
  }

  /** waitpid returns some exited child; the first control block that holds its id, if
      any, is updated. */
  ghost predicate ReapStep(s: State, pid: int, s': State) {
    && (s.place.Reaping? || s.place.WindReaping?) && pid in s.dead
    && s' == s.(apps := s'.apps, kids := s.kids - {pid}, orphans := s.orphans - {pid}, dead := s.dead - {pid})
    && (if exists i :: 0 <= i < |s.apps| && s.apps[i].pid == pid
        then exists i ::
          0 <= i < |s.apps| && s.apps[i].pid == pid && s'.apps == s.apps[i := Reaped(s.apps[i], s.stop, s.now)]
        else s'.apps == s.apps)
  }

  /** One request at most, in any pass that still has the control socket. */
  ghost predicate RequestStep(s: State, l: Label, s': State) {
    && s.place.Serving?
    && match l
       case Start(i, o) =>
         i < |s.apps| && !s.apps[i].running && CanFork(s, o)
         && s' == s.(place := Draining(s.place.last), kids := Kids(s, o),
                     apps := s.apps[i := Started(s.apps[i], o, s.now)])
       case StartRunning(i) =>
         i < |s.apps| && s.apps[i].running
         && s' == s.(place := Draining(s.place.last), apps := s.apps[i := Cleared(s.apps[i].(desired := true))])
       case Stop(i) =>
         i < |s.apps| && s' == s.(place := Draining(s.place.last), apps := s.apps[i := Stopped(s.apps[i])])
       case _ => false
  }

  ghost predicate CloseStep(s: State, i: nat, out: bool, s': State) {
    && (s.place.Draining? || s.place.WindDraining?) && i < |s.apps|
    && s' == s.(apps := s.apps[i := if out then s.apps[i].(outOpen := false) else s.apps[i].(errOpen := false)])
  }

  /** Steps that only lead on. */
  ghost predicate MoveStep(s: State, s': State) {
    match s.place
    case Boot(i) =>
      if i < |s.apps| then !s.apps[i].desired && s' == s.(place := Boot(i + 1))
      else s' == s.(place := Restarting(0, s.now))
    case Restarting(i, t) =>
      if i < |s.apps| then !Due(s.apps[i], s.stop, t) && s' == s.(place := Restarting(i + 1, t))
      else s' == s.(place := Reaping)
    case Reaping => s.dead == {} && s' == s.(place := Checking)
    case Checking =>
      if s.stop != 0 then s' == s.(place := Forwarding(0, s.stop), stop := 0) else s' == s.(place := Serving(false))
    case Forwarding(i, g) =>
      if i < |s.apps| then !s.apps[i].running && s' == s.(place := Forwarding(i + 1, g))
      else s' == s.(place := Serving(true))
    case Serving(last) => s' == s.(place := Draining(last))
    case Draining(last) => s' == s.(place := if last then Winding else Restarting(0, s.now))
    case Winding => s' == s.(place := if AnyRunning(s.apps) || AnyStreamOpen(s.apps) then WindReaping else Finished)
    case WindReaping => s.dead == {} && s' == s.(place := WindDraining)
    case WindDraining => s' == s.(place := Winding)
    case Finished => !s.reload && s' == s.(place := Exited)
    case Exited => false
  }

  /** After the wind-down, a reload starts over with the applications of a new configuration. */
  ghost predicate ReloadStep(s: State, apps: seq<Scb>, s': State) {
    && s.place.Finished? && s.reload && (forall i :: 0 <= i < |apps| ==> IsInitial(apps[i]))
    && s' == s.(place := Boot(0), apps := apps, stop := 0, reload := false)
  }

  ghost predicate Next(s: State, l: Label, s': State) {
    match l
    case Env => EnvStep(s, s')
    case Move => MoveStep(s, s')
    case Spawn(i, o) => SpawnStep(s, i, o, s')
    case Reap(pid) => ReapStep(s, pid, s')
    case Kill(i) =>
      s.place.Forwarding? && s.place.i == i && i < |s.apps| && s.apps[i].running
      && s' == s.(place := Forwarding(i + 1, s.place.signal))
    case CloseStream(i, out) => CloseStep(s, i, out, s')
    case Reload(apps) => ReloadStep(s, apps, s')
    case _ => RequestStep(s, l, s')
  }

  ghost predicate Init(s: State) {
    && s.place == Boot(0) && s.kids == {} && s.orphans == {} && s.dead == {} && s.stop == 0 && !s.reload
    && forall i :: 0 <= i < |s.apps| ==> IsInitial(s.apps[i])
  }

  /** What holds of each control block by itself: it holds a process id exactly while it
      is running, a pending restart is wanted and not running, streams belong to a run. */
  ghost predicate GoodScb(a: Scb) {
    && (if a.running then a.pid > 0 else a.pid <= 0)
    && (a.pending ==> a.desired && a.autorestart && !a.running)
    && (a.outOpen || a.errOpen ==> a.running)
  }

  ghost predicate AllGood(apps: seq<Scb>) {
    forall i :: 0 <= i < |apps| ==> GoodScb(apps[i])
  }

  predicate Owns(a: Scb, pid: int) {
    a.running && a.pid == pid
  }

  ghost predicate Owned(apps: seq<Scb>, pid: int) {
    exists i :: 0 <= i < |apps| && Owns(apps[i], pid)
  }

  /** The running applications and the own unreaped children are in one-to-one
      correspondence through the process id. */
  ghost predicate Linked(kids: set<int>, apps: seq<Scb>) {
    && (forall i :: 0 <= i < |apps| && apps[i].running ==> apps[i].pid in kids)
    && (forall i, j :: 0 <= i < j < |apps| && apps[i].running && apps[j].running ==> apps[i].pid != apps[j].pid)
    && (forall p | p in kids :: Owned(apps, p))
  }

  /** Wanted, restarted by itself, down, and yet nothing scheduled. */
  predicate Lost(a: Scb) {
    a.desired && a.autorestart && !a.running && !a.pending
  }

  ghost predicate NoneLost(apps: seq<Scb>, n: int) {
    forall i :: 0 <= i < |apps| && i < n ==> !Lost(apps[i])
  }

  /** The part of the main loop in which every restart must be scheduled. */
  predicate InLoop(p: Place) {
    p.Restarting? || p.Reaping? || p.Checking? || (p.Serving? && !p.last) || (p.Draining? && !p.last)
  }

  ghost predicate GoodOs(kids: set<int>, orphans: set<int>, dead: set<int>, stop: int) {
    && kids !! orphans && dead <= kids + orphans && stop >= 0
    && (forall p | p in kids :: p > 0) && (forall p | p in orphans :: p > 0)
  }

  ghost predicate AllInitial(apps: seq<Scb>, n: int) {
    forall i :: 0 <= i < |apps| && n <= i ==> IsInitial(apps[i])
  }

  /** What each place adds. */
  ghost predicate AtPlace(s: State) {
    && (InLoop(s.place) && s.stop == 0 ==> NoneLost(s.apps, |s.apps|))
    && (s.place.Boot? ==> NoneLost(s.apps, s.place.i) && AllInitial(s.apps, s.place.i))
    && (s.place.Restarting? ==> s.place.time <= s.now)
    && (s.place.Finished? || s.place.Exited? ==> !AnyRunning(s.apps) && !AnyStreamOpen(s.apps))
  }

  /** The invariant of every run. */
  ghost predicate Inv(s: State) {
    GoodOs(s.kids, s.orphans, s.dead, s.stop) && AllGood(s.apps) && Linked(s.kids, s.apps) && AtPlace(s)
  }

  /** One control block changes: what matters of it for the processes. */
  lemma LinkedSame(kids: set<int>, apps: seq<Scb>, i: nat, b: Scb)
    requires Linked(kids, apps) && i < |apps| && b.running == apps[i].running && b.pid == apps[i].pid
    ensures Linked(kids, apps[i := b])
  {
    var after := apps[i := b];
    forall p | p in kids ensures Owned(after, p) {
      assert Owned(apps, p);
      var j :| 0 <= j < |apps| && Owns(apps[j], p);
      assert Owns(after[j], p);
    }
  }

  lemma LinkedFork(kids: set<int>, apps: seq<Scb>, i: nat, b: Scb)
    requires Linked(kids, apps) && i < |apps| && !apps[i].running && b.running && b.pid !in kids
    ensures Linked(kids + {b.pid}, apps[i := b])
  {
    var after := apps[i := b];
    forall p | p in kids + {b.pid} ensures Owned(after, p) {
      if p == b.pid {
        assert Owns(after[i], p);
      } else {
        assert Owned(apps, p);
        var j :| 0 <= j < |apps| && Owns(apps[j], p);
        assert Owns(after[j], p);
      }
    }
  }

  lemma LinkedReap(kids: set<int>, apps: seq<Scb>, i: nat, b: Scb)
    requires Linked(kids, apps) && i < |apps| && apps[i].running && !b.running
    ensures Linked(kids - {apps[i].pid}, apps[i := b])
  {
    var after := apps[i := b];
    forall p | p in kids - {apps[i].pid} ensures Owned(after, p) {
      assert Owned(apps, p);
      var j :| 0 <= j < |apps| && Owns(apps[j], p);
      assert Owns(after[j], p);
    }
  }

  /** The application of an own child. */
  lemma OwnerOf(kids: set<int>, apps: seq<Scb>, pid: int) returns (i: nat)
    requires Linked(kids, apps) && pid in kids
    ensures i < |apps| && apps[i].running && apps[i].pid == pid
  {
    assert Owned(apps, pid);
    i :| 0 <= i < |apps| && Owns(apps[i], pid);
  }

  /** A process that is not an own child is no application's. */
  lemma NotOwned(s: State, pid: int, i: nat)
    requires AllGood(s.apps) && Linked(s.kids, s.apps) && pid > 0 && i < |s.apps|
    ensures s.apps[i].pid == pid ==> s.apps[i].running && pid in s.kids
  {
    assert GoodScb(s.apps[i]);
  }

  lemma InitHolds(s: State)
    requires Init(s)
    ensures Inv(s)
  {
  }

  lemma EnvKeeps(s: State, s': State)
    requires Inv(s) && EnvStep(s, s')
    ensures Inv(s')
  {
    hide Linked, AllGood, NoneLost, AllInitial;
  }

  lemma MoveKeeps(s: State, s': State)
    requires Inv(s) && MoveStep(s, s')
    ensures Inv(s')
  {
    hide Linked, AllGood;
  }

  /** One spawn attempt for a control block that is down. */
  lemma SpawnLinks(s: State, i: nat, o: SpawnResult, b: Scb)
    requires Inv(s) && i < |s.apps| && !s.apps[i].running && CanFork(s, o)
    requires b.running == o.Forked? && (if o.Forked? then b.pid == o.pid else b.pid <= 0) && GoodScb(b)
    ensures GoodOs(Kids(s, o), s.orphans, s.dead, s.stop)
    ensures AllGood(s.apps[i := b]) && Linked(Kids(s, o), s.apps[i := b])
  {
    hide AtPlace;
    if o.Forked? {
      LinkedFork(s.kids, s.apps, i, b);
    } else {
      LinkedDown(s.kids, s.apps, i, b);
    }
  }

  lemma LinkedDown(kids: set<int>, apps: seq<Scb>, i: nat, b: Scb)
    requires Linked(kids, apps) && i < |apps| && !apps[i].running && !b.running
    ensures Linked(kids, apps[i := b])
  {
    var after := apps[i := b];
    forall p | p in kids ensures Owned(after, p) {
      assert Owned(apps, p);
      var j :| 0 <= j < |apps| && Owns(apps[j], p);
      assert Owns(after[j], p);
    }
  }

  lemma SpawnKeeps(s: State, i: nat, o: SpawnResult, s': State)
    requires Inv(s) && SpawnStep(s, i, o, s')
    ensures Inv(s')
  {
    hide Linked, GoodOs;
    var a := s.apps[i];
    assert GoodScb(a);
    if s.place.Boot? { assert IsInitial(a); }
    SpawnLinks(s, i, o, s'.apps[i]);
  }

  lemma ReapKeeps(s: State, pid: int, s': State)
    requires Inv(s) && ReapStep(s, pid, s')
    ensures Inv(s')
  {
    hide Linked, AllGood;
    if exists i :: 0 <= i < |s.apps| && s.apps[i].pid == pid {
      var i :| 0 <= i < |s.apps| && s.apps[i].pid == pid && s'.apps == s.apps[i := Reaped(s.apps[i], s.stop, s.now)];
      NotOwned(s, pid, i);
      LinkedReap(s.kids, s.apps, i, s'.apps[i]);
      GoodReaped(s.apps, i, s.stop, s.now);
    } else {
      OrphanReaped(s, pid);
    }
  }

  lemma GoodReaped(apps: seq<Scb>, i: nat, stop: int, now: int)
    requires AllGood(apps) && i < |apps|
    ensures AllGood(apps[i := Reaped(apps[i], stop, now)])
  {
  }

  lemma OrphanReaped(s: State, pid: int)
    requires Inv(s) && pid in s.dead && !(exists i :: 0 <= i < |s.apps| && s.apps[i].pid == pid)
    ensures pid in s.orphans && s.kids - {pid} == s.kids
  {
    if pid in s.kids {
      var j := OwnerOf(s.kids, s.apps, pid);
      assert false;
    }
  }

  lemma RequestKeeps(s: State, l: Label, s': State)
    requires Inv(s) && RequestStep(s, l, s')
    ensures Inv(s')
  {
    hide Linked, GoodOs;
    match l
    case Start(i, o) =>
      assert GoodScb(s.apps[i]);
      SpawnLinks(s, i, o, s'.apps[i]);
    case StartRunning(i) =>
      assert GoodScb(s.apps[i]);
      LinkedSame(s.kids, s.apps, i, s'.apps[i]);
    case Stop(i) =>
      assert GoodScb(s.apps[i]);
      LinkedSame(s.kids, s.apps, i, s'.apps[i]);
    case _ =>
  }

  lemma CloseKeeps(s: State, i: nat, out: bool, s': State)
    requires Inv(s) && CloseStep(s, i, out, s')
    ensures Inv(s')
  {
    hide Linked, GoodOs;
    assert GoodScb(s.apps[i]);
    LinkedSame(s.kids, s.apps, i, s'.apps[i]);
  }

  /** Nothing runs: no child is left. */
  lemma AllReaped(s: State)
    requires Linked(s.kids, s.apps) && !AnyRunning(s.apps)
    ensures s.kids == {}
  {
    forall p ensures p !in s.kids {
      if p in s.kids {
        var j := OwnerOf(s.kids, s.apps, p);
        assert false;
      }
    }
  }

  lemma ReloadKeeps(s: State, apps: seq<Scb>, s': State)
    requires Inv(s) && ReloadStep(s, apps, s')
    ensures Inv(s')
  {
    AllReaped(s);
  }

  /** Every step keeps the invariant. */
  lemma NextKeeps(s: State, l: Label, s': State)
    requires Inv(s) && Next(s, l, s')
    ensures Inv(s')
  {
    hide Inv, EnvStep, MoveStep, SpawnStep, ReapStep, CloseStep, ReloadStep, RequestStep;
    match l
    case Env => EnvKeeps(s, s');
    case Move => MoveKeeps(s, s');
    case Spawn(i, o) => SpawnKeeps(s, i, o, s');
    case Reap(pid) => ReapKeeps(s, pid, s');
    case Kill(i) => KillKeeps(s, s');
    case CloseStream(i, out) => CloseKeeps(s, i, out, s');
    case Reload(apps) => ReloadKeeps(s, apps, s');
    case _ => RequestKeeps(s, l, s');
  }

  lemma KillKeeps(s: State, s': State)
    requires Inv(s) && s.place.Forwarding? && s' == s.(place := Forwarding(s.place.i + 1, s.place.signal))
    ensures Inv(s')
  {
  }
}
