/** The supervisor's own code: methods over its control blocks, each of which is a run
    of the step system. What happens around it meanwhile is a parameter. */
module Supervisor {
  import opened CText
  import opened Supervision
  import opened SupervisionRuns
  import opened SupervisorWorld

  lemma Extend(r: Run, l: Label, s: State)
    requires IsRun(r) && Next(Last(r.states), l, s)
    ensures IsRun(Run(r.states + [s], r.labels + [l]))
  {
    hide Next, Init;
    var q := Run(r.states + [s], r.labels + [l]);
    forall k | 0 <= k < |q.labels| ensures NextAt(q, k) {
      if k < |r.labels| { assert NextAt(r, k); }
    }
  }

  /** What the control socket delivers in a pass, if anything. */
  datatype Request = StartApp(name: string, o: SpawnResult) | StopApp(name: string) | NoChange

  /** What happens around one pass of the main loop: before each turn of the restart loop
      and what its forks give, before each wait, before the signal is looked at, before
      the request, which streams reach their end, and after the pass. */
  datatype Circumstances = Circumstances(
    restarting: seq<seq<Happening>>, outcomes: seq<SpawnResult>, reaping: seq<seq<Happening>>,
    beforeSignal: seq<Happening>, beforeServing: seq<Happening>, request: Request,
    closing: seq<(nat, bool)>, afterwards: seq<Happening>)

  /** The same for one pass of the wind-down. */
  datatype WindCircumstances = WindCircumstances(reaping: seq<seq<Happening>>, closing: seq<(nat, bool)>)

  function At(world: seq<seq<Happening>>, k: nat): seq<Happening> {
    if k < |world| then world[k] else []
  }

  /** The first n of these streams are closed. */
  ghost predicate Shut(apps: seq<Scb>, closing: seq<(nat, bool)>, n: nat) {
    forall k :: 0 <= k < |closing| && k < n && closing[k].0 < |apps| ==> !IsOpen(apps[closing[k].0], closing[k].1)
  }

  /** No stop signal before the first n turns. */
  ghost predicate NoAlarms(world: seq<seq<Happening>>, n: nat) {
    forall k :: 0 <= k < n ==> NoAlarm(At(world, k))
  }

  lemma AlarmAmong(world: seq<seq<Happening>>, k: nat)
    ensures !NoAlarm(At(world, k)) ==> !NoAlarms(world, |world|)
  {
  }

  class Supervisor {
    const names: seq<string>
    const scb: array<Scb>
    var gotSignalStop: int
    var gotSignalReload: bool

    /** The operating system's side. */
    var kids: set<int>
    var orphans: set<int>
    var dead: set<int>
    var now: int

    ghost var place: Place
    ghost var run: Run

    ghost function View(): State
      reads this, scb
    {
      State(place, scb[..], kids, orphans, dead, now, gotSignalStop, gotSignalReload)
    }

    ghost predicate Valid()
      reads this, scb
    {
      IsRun(run) && Last(run.states) == View() && scb.Length == |names|
    }

    ghost method Record(l: Label)
      requires IsRun(run) && Next(Last(run.states), l, View()) && scb.Length == |names|
      modifies this`run
      ensures Valid() && run.labels == old(run.labels) + [l] && run.states == old(run.states) + [View()]
    {
      Extend(run, l, View());
      run := Run(run.states + [View()], run.labels + [l]);
    }

    lemma Holds()
      requires Valid()
      ensures Inv(View())
    {
      Always(run, |run.states| - 1);
    }

    /** Start-up: the control blocks of the configuration's applications. */
    constructor (names: seq<string>, autostart: seq<bool>, autorestart: seq<bool>, now: int)
      requires |names| == |autostart| == |autorestart|
      ensures Valid() && this.names == names && place == Boot(0) && fresh(scb)
      ensures forall k :: 0 <= k < |names| ==> scb[k] == InitialScb(autostart[k], autorestart[k])
    {
      this.names := names;
      scb := new Scb[|names|](k requires 0 <= k < |names| => InitialScb(autostart[k], autorestart[k]));
      gotSignalStop, gotSignalReload, kids, orphans, dead, this.now := 0, false, {}, {}, {}, now;
      place := Boot(0);
      new;
      run := Run([View()], []);
    }

    method ScheduleRestart(i: nat)
      requires i < scb.Length
      modifies scb
      ensures scb[..] == old(scb[..])[i := Scheduled(old(scb[i]), now)]
    {
      scb[i] := scb[i].(pending := true, restartAt := now + RESTART_DELAY);
    }

    /** supervisor_spawn after its outcome is known. */
    method SpawnScb(i: nat, o: SpawnResult)
      requires i < scb.Length
      modifies scb, this`kids
      ensures scb[..] == old(scb[..])[i := Spawned(old(scb[i]), o, now)] && kids == Kids(old(View()), o)
    {
      match o
      case NotForked(closed) =>
        if closed { scb[i] := scb[i].(outOpen := false, errOpen := false); }
      case ForkFailed =>
        scb[i] := scb[i].(running := false, pid := -1, startedAt := 0, outOpen := false, errOpen := false);
      case Forked(pid, out, err, _) =>
        kids := kids + {pid};
        scb[i] := scb[i].(running := true, pid := pid, startedAt := now, outOpen := out, errOpen := err);
    }

    method AnyRunningScb() returns (r: bool)
      ensures r == AnyRunning(scb[..])
    {
      for i := 0 to scb.Length
        invariant forall k :: 0 <= k < i ==> !scb[k].running
      {
        if scb[i].running {
          assert scb[..][i].running;
          return true;
        }
      }
      return false;
    }

    /** The first application of the name. */
    method FindScb(name: string) returns (i: Option<nat>)
      requires scb.Length == |names|
      ensures i.Some? ==>
        i.value < |names| && names[i.value] == name && forall k :: 0 <= k < i.value ==> names[k] != name
      ensures i.None? ==> name !in names
    {
      for k := 0 to |names|
        invariant forall j :: 0 <= j < k ==> names[j] != name
      {
        if names[k] == name { return Some(k); }
      }
      return None;
    }

    /** A stretch of code that began at a time, with a stop signal or none. */
    ghost function Since(from: int, stopBefore: int): Window
      reads this`now, this`gotSignalStop
    {
      Window(from, now, stopBefore, gotSignalStop)
    }

    /** The world goes on, as one step of the run. */
    method Happen(hs: seq<Happening>)
      requires Valid()
      modifies this`run, this`orphans, this`dead, this`now, this`gotSignalStop, this`gotSignalReload
      ensures Valid() && old(run.labels) <= run.labels && EnvStep(old(View()), View())
      ensures old(now) <= now && old(dead) <= dead && old(orphans) <= orphans
      ensures gotSignalStop != 0 <==> old(gotSignalStop) != 0 || !NoAlarm(hs)
      ensures hs == [] ==> dead == old(dead)
    {
      hide Inv, Linked, AllGood, AtPlace, Next, IsRun, NoAlarm;
      Holds();
      ghost var was := View();
      GoodSystem(was);
      HappeningsAreEnv(was, hs);
      StopStaysSet(was, hs);
      var i := 0;
      assert hs[0..] == hs;
      while i < |hs|
        invariant 0 <= i <= |hs| && AfterAll(View(), hs[i..]) == AfterAll(was, hs)
        invariant run == old(run)
      {
        assert hs[i..][0] == hs[i] && hs[i..][1..] == hs[i + 1..];
        HappenOne(hs[i]);
        i := i + 1;
      }
      assert hs[i..] == [];
      RecordEnv(was);
    }

    ghost method RecordEnv(was: State)
      requires IsRun(run) && Last(run.states) == was && EnvStep(was, View()) && scb.Length == |names|
      modifies this`run
      ensures Valid() && run.labels == old(run.labels) + [Env]
    {
      hide EnvStep, IsRun;
      Record(Env);
    }

    method HappenOne(h: Happening)
      modifies this`orphans, this`dead, this`now, this`gotSignalStop, this`gotSignalReload
      ensures View() == After(old(View()), h)
    {
      match h
      case Tick(seconds) => now := now + seconds;
      case Exit(pid) => if pid in kids || pid in orphans { dead := dead + {pid}; }
      case Adoption(pid) => if pid > 0 && pid !in kids && pid !in orphans { orphans := orphans + {pid}; }
      case StopSignal(signal) => if signal > 0 { gotSignalStop := signal; }
      case ReloadSignal => gotSignalStop, gotSignalReload := SIGTERM, true;
    }

    /** supervisor_start_pending_restarts: the time is read once; then each control block
        has its turn, and a failed attempt is scheduled again. */
    method StartPendingRestarts(world: seq<seq<Happening>>, outcomes: seq<SpawnResult>)
      returns (ghost used: seq<set<int>>)
      requires Valid() && place == Restarting(0, now) && |outcomes| == scb.Length
      modifies this`place, this`run, this`kids, scb
      modifies this`orphans, this`dead, this`now, this`gotSignalStop, this`gotSignalReload
      ensures Valid() && place == Reaping && old(run.labels) <= run.labels && old(now) <= now
      ensures |used| == scb.Length && InUse(used, old(kids + orphans), kids + orphans)
      ensures Turns(Restarts(old(now)), old(scb[..]), scb[..], outcomes, used, Since(old(now), old(gotSignalStop)))
      ensures forall k :: 0 <= k < scb.Length ==>
        RestartedRight(old(scb[..])[k], scb[k], Counts(outcomes[k], used[k]), old(now), now, old(gotSignalStop),
                       gotSignalStop)
      ensures gotSignalStop != 0 <==> old(gotSignalStop) != 0 || !NoAlarms(world, scb.Length)
    {
      hide Valid, Next, IsRun, Inv, Turns, InUse, EnvStep, Takes, Attempt, NoAlarm, RestartedRight, Counts;
      GoodNow();
      var time := now;
      ghost var was, stop, busy := scb[..], gotSignalStop, kids + orphans;
      used := [];
      NoneUsed(busy);
      NoTurns(Restarts(time), was, outcomes, Since(time, stop));
      var i := 0;
      while i < scb.Length
        invariant 0 <= i <= scb.Length && Valid() && place == Restarting(i, time) && old(run.labels) <= run.labels
        invariant time <= now && (gotSignalStop != 0 <==> stop != 0 || !NoAlarms(world, i))
        invariant |used| == i && busy <= kids + orphans && InUse(used, busy, kids + orphans)
        invariant Turns(Restarts(time), was, scb[..], outcomes, used, Since(time, stop))
      {
        ghost var v, u := Since(time, stop), kids + orphans;
        Happen(At(world, i));
        TurnsWiden(Restarts(time), was, scb[..], outcomes, used, v, Since(time, stop));
        ghost var before, n := scb[..], kids + orphans;
        RestartOne(i, time, Admitted(outcomes[i], kids + orphans));
        TurnsMore(Restarts(time), was, before, outcomes, used, Since(time, stop), n);
        UsedMore(used, busy, u, n, kids + orphans);
        used := used + [n];
        i := i + 1;
      }
      RestartsRight(was, scb[..], outcomes, used, Since(time, stop));
      EndRestarts(time);
    }

    /** The control blocks keep the invariant. */
    lemma GoodNow()
      requires Valid()
      ensures AllGood(scb[..]) && (place == Boot(0) ==> AllInitial(scb[..], 0))
    {
      hide Valid, GoodScb, Linked, GoodOs, NoneLost, AllInitial;
      Holds();
    }

    method EndRestarts(time: int)
      requires Valid() && place == Restarting(scb.Length, time)
      modifies this`place, this`run
      ensures Valid() && place == Reaping && old(run.labels) <= run.labels
    {
      place := Reaping;
      Record(Move);
    }

    /** One turn of the loop. */
    method RestartOne(i: nat, time: int, o: SpawnResult)
      requires Valid() && i < scb.Length && place == Restarting(i, time) && CanFork(View(), o)
      modifies this`place, this`run, this`kids, scb
      ensures Valid() && place == Restarting(i + 1, time) && old(run.labels) <= run.labels && old(kids) <= kids
      ensures scb[..] == old(scb[..])[i := Taken(Restarts(time), old(scb[i]), gotSignalStop, o, now)]
    {
      hide EnvStep, ReapStep, CloseStep, ReloadStep, RequestStep, IsRun;
      place := Restarting(i + 1, time);
      if !Due(scb[i], gotSignalStop, time) {
        Record(Move);
        return;
      }
      scb[i] := scb[i].(pending := false, restartAt := 0);
      SpawnScb(i, o);
      if !o.Forked? { ScheduleRestart(i); }
      Record(Spawn(i, o));
    }

    /** The startup loop: each application that is wanted is spawned once. */
    method SpawnAll(world: seq<seq<Happening>>, outcomes: seq<SpawnResult>) returns (ghost used: seq<set<int>>)
      requires Valid() && place == Boot(0) && |outcomes| == scb.Length
      modifies this`place, this`run, this`kids, scb
      modifies this`orphans, this`dead, this`now, this`gotSignalStop, this`gotSignalReload
      ensures Valid() && place == Restarting(0, now) && old(run.labels) <= run.labels && old(now) <= now
      ensures |used| == scb.Length && InUse(used, old(kids + orphans), kids + orphans)
      ensures Turns(Startup, old(scb[..]), scb[..], outcomes, used, Since(old(now), old(gotSignalStop)))
      ensures forall k :: 0 <= k < scb.Length ==>
        BootedRight(old(scb[..])[k], scb[k], Counts(outcomes[k], used[k]), old(now), now)
    {
      hide Valid, Next, IsRun, Inv, Turns, InUse, EnvStep, Takes, Attempt, BootedRight, Counts, AllInitial;
      GoodNow();
      ghost var was, from, stop, busy := scb[..], now, gotSignalStop, kids + orphans;
      used := [];
      NoneUsed(busy);
      NoTurns(Startup, was, outcomes, Since(from, stop));
      var i := 0;
      while i < scb.Length
        invariant 0 <= i <= scb.Length && Valid() && place == Boot(i) && old(run.labels) <= run.labels
        invariant from <= now && (stop != 0 ==> gotSignalStop != 0)
        invariant |used| == i && busy <= kids + orphans && InUse(used, busy, kids + orphans)
        invariant Turns(Startup, was, scb[..], outcomes, used, Since(from, stop))
      {
        ghost var v, u := Since(from, stop), kids + orphans;
        Happen(At(world, i));
        TurnsWiden(Startup, was, scb[..], outcomes, used, v, Since(from, stop));
        ghost var before, n := scb[..], kids + orphans;
        BootOne(i, Admitted(outcomes[i], kids + orphans));
        TurnsMore(Startup, was, before, outcomes, used, Since(from, stop), n);
        UsedMore(used, busy, u, n, kids + orphans);
        used := used + [n];
        i := i + 1;
      }
      BootsRight(was, scb[..], outcomes, used, Since(from, stop));
      EndBoot();
    }

    method EndBoot()
      requires Valid() && place == Boot(scb.Length)
      modifies this`place, this`run
      ensures Valid() && place == Restarting(0, now) && old(run.labels) <= run.labels
    {
      place := Restarting(0, now);
      Record(Move);
    }

    method BootOne(i: nat, o: SpawnResult)
      requires Valid() && i < scb.Length && place == Boot(i) && CanFork(View(), o)
      modifies this`place, this`run, this`kids, scb
      ensures Valid() && place == Boot(i + 1) && old(run.labels) <= run.labels && old(kids) <= kids
      ensures scb[..] == old(scb[..])[i := Taken(Startup, old(scb[i]), gotSignalStop, o, now)]
    {
      hide EnvStep, ReapStep, CloseStep, ReloadStep, RequestStep, IsRun;
      place := Boot(i + 1);
      if !scb[i].desired {
        Record(Move);
        return;
      }
      SpawnScb(i, o);
      if !o.Forked? && scb[i].autorestart { ScheduleRestart(i); }
      Record(Spawn(i, o));
    }

    /** supervisor_reap_children: it waits for exited children until there is none; the
        applications whose processes were among them are down, and scheduled if they
        should run. */
    method ReapChildren(world: seq<seq<Happening>>) returns (ghost waited: set<int>)
      requires Valid() && (place.Reaping? || place.WindReaping?)
      modifies this`place, this`run, this`kids, scb
      modifies this`orphans, this`dead, this`now, this`gotSignalStop, this`gotSignalReload
      ensures Valid() && old(run.labels) <= run.labels && dead == {} && old(now) <= now
      ensures place == if old(place).Reaping? then Checking else WindDraining
      ensures old(dead) <= waited && kids == old(kids) - waited
      ensures AllWaited(old(scb[..]), scb[..], waited, Since(old(now), old(gotSignalStop)))
      ensures forall k :: 0 <= k < scb.Length ==>
        WaitedRight(old(scb[..])[k], scb[k], waited, Since(old(now), old(gotSignalStop)))
      ensures old(gotSignalStop) != 0 || !NoAlarm(At(world, 0)) ==> gotSignalStop != 0
      ensures gotSignalStop != 0 ==> old(gotSignalStop) != 0 || !NoAlarms(world, |world|)
    {
      hide Valid, Next, IsRun, Inv, AllWaited, WaitedRight, View, EnvStep, NoAlarm, NoAlarms;
      GoodNow();
      ghost var was, had, first, from, stop := scb[..], kids, dead, now, gotSignalStop;
      waited := {};
      NoneWaited(was, Since(from, stop));
      var i := 0;
      Happen(At(world, i));
      AlarmAmong(world, i);
      WaitedWidens(was, was, {}, Window(from, from, stop, stop), Since(from, stop));
      while dead != {}
        invariant Valid() && place == old(place) && old(run.labels) <= run.labels
        invariant from <= now && (stop != 0 || !NoAlarm(At(world, 0)) ==> gotSignalStop != 0)
        invariant gotSignalStop != 0 ==> stop != 0 || !NoAlarms(world, |world|)
        invariant first <= waited + dead && kids == had - waited
        invariant AllWaited(was, scb[..], waited, Since(from, stop))
        decreases if i < |world| then |world| - i else 0, dead
      {
        EmptyOrNot(dead);
        var pid :| pid in dead;
        i := i + 1;
        WaitNext(pid, At(world, i), was, had, first, waited, from, stop);
        AlarmAmong(world, i);
        waited := waited + {pid};
      }
      AllWaitedRight(was, scb[..], waited, Since(from, stop));
      EndReap();
    }

    /** One wait, and what happens before the next one. */
    method WaitNext(pid: int, hs: seq<Happening>, ghost was: seq<Scb>, ghost had: set<int>, ghost first: set<int>,
                    ghost waited: set<int>, ghost from: int, ghost stop: int)
      requires Valid() && (place.Reaping? || place.WindReaping?) && pid in dead
      requires first <= waited + dead && kids == had - waited
      requires from <= now && (stop != 0 ==> gotSignalStop != 0)
      requires AllWaited(was, scb[..], waited, Since(from, stop))
      modifies this`run, this`kids, scb
      modifies this`orphans, this`dead, this`now, this`gotSignalStop, this`gotSignalReload
      ensures Valid() && old(run.labels) <= run.labels && old(now) <= now
      ensures first <= waited + {pid} + dead && kids == had - (waited + {pid})
      ensures hs == [] ==> dead < old(dead)
      ensures gotSignalStop != 0 <==> old(gotSignalStop) != 0 || !NoAlarm(hs)
      ensures AllWaited(was, scb[..], waited + {pid}, Since(from, stop))
    {
      hide Valid, Next, IsRun, Inv, AllWaited, View, EnvStep, NoAlarm;
      ghost var before, v := scb[..], Since(from, stop);
      WaitOne(pid);
      WaitedMore(was, before, scb[..], waited, pid, v);
      Happen(hs);
      WaitedWidens(was, scb[..], waited + {pid}, v, Since(from, stop));
    }

    method EndReap()
      requires Valid() && (place.Reaping? || place.WindReaping?) && dead == {}
      modifies this`place, this`run
      ensures Valid() && old(run.labels) <= run.labels
      ensures place == if old(place).Reaping? then Checking else WindDraining
    {
      place := if place.Reaping? then Checking else WindDraining;
      Record(Move);
    }

    /** What follows one wait: the search for the application of the process. */
    method WaitOne(pid: int)
      requires Valid() && (place.Reaping? || place.WindReaping?) && pid in dead
      modifies this`run, this`kids, this`orphans, this`dead, scb
      ensures Valid() && old(run.labels) <= run.labels
      ensures dead == old(dead) - {pid} && kids == old(kids) - {pid}
      ensures forall k :: 0 <= k < scb.Length ==>
        scb[k] == WaitedNow(old(scb[k]), pid, Window(now, now, 0, gotSignalStop))
    {
      hide Inv, EnvStep, MoveStep, SpawnStep, CloseStep, ReloadStep, RequestStep, IsRun;
      Holds();
      OnlyOwner(View(), pid);
      ghost var before := scb[..];
      kids, orphans, dead := kids - {pid}, orphans - {pid}, dead - {pid};
      var i := 0;
      while i < scb.Length && scb[i].pid != pid
        invariant 0 <= i <= scb.Length && forall k :: 0 <= k < i ==> before[k].pid != pid
      {
        i := i + 1;
      }
      if i < scb.Length {
        assert before[i].pid == pid;
        scb[i] := scb[i].(running := false, pid := 0, startedAt := 0, outOpen := false, errOpen := false);
        if scb[i].autorestart && scb[i].desired && gotSignalStop == 0 { ScheduleRestart(i); }
        assert scb[..] == before[i := Reaped(before[i], gotSignalStop, now)];
      } else {
        assert scb[..] == before;
      }
      Record(Reap(pid));
    }

    /** The stop branch of the main loop: the signal goes to every running application,
        in order, and the loop is left. */
    method ForwardStop() returns (running: bool, killed: seq<int>)
      requires Valid() && place == Checking
      modifies this`place, this`run, this`gotSignalStop
      ensures Valid() && old(run.labels) <= run.labels && running == (old(gotSignalStop) == 0)
      ensures place == Serving(!running) && gotSignalStop == 0
      ensures if running then killed == [] else forall p :: p in killed <==> p in kids
      ensures !running ==> killed == RunningPids(scb[..])
    {
      hide Valid, Next, IsRun, Inv;
      var signal := gotSignalStop;
      if signal == 0 {
        EndCheck();
        return true, [];
      }
      EndCheck();
      killed := [];
      for i := 0 to scb.Length
        invariant Valid() && place == Forwarding(i, signal) && old(run.labels) <= run.labels && gotSignalStop == 0
        invariant killed == RunningPids(scb[..i])
      {
        assert Pop(scb[..i + 1]) == scb[..i];
        if scb[i].running { killed := killed + [scb[i].pid]; }
        ForwardOne(i, signal);
      }
      assert scb[..scb.Length] == scb[..];
      EndForward(signal);
      Holds();
      forall p ensures p in killed <==> p in kids { RunningPidsAreKids(View(), p); }
      return false, killed;
    }

    method EndCheck()
      requires Valid() && place == Checking
      modifies this`place, this`run, this`gotSignalStop
      ensures Valid() && old(run.labels) <= run.labels && gotSignalStop == 0
      ensures place == if old(gotSignalStop) != 0 then Forwarding(0, old(gotSignalStop)) else Serving(false)
    {
      place := if gotSignalStop != 0 then Forwarding(0, gotSignalStop) else Serving(false);
      gotSignalStop := 0;
      Record(Move);
    }

    ghost method ForwardOne(i: nat, signal: int)
      requires Valid() && place == Forwarding(i, signal) && i < scb.Length
      modifies this`place, this`run
      ensures Valid() && old(run.labels) <= run.labels && place == Forwarding(i + 1, signal)
    {
      place := Forwarding(i + 1, signal);
      Record(if scb[i].running then Kill(i) else Move);
    }

    ghost method EndForward(signal: int)
      requires Valid() && place == Forwarding(scb.Length, signal)
      modifies this`place, this`run
      ensures Valid() && old(run.labels) <= run.labels && place == Serving(true)
    {
      place := Serving(true);
      Record(Move);
    }

    /** supervisor_handle_control_start */
    method HandleStart(name: string, o: SpawnResult) returns (reply: Reply)
      requires Valid() && place.Serving? && CanFork(View(), o)
      modifies this`place, this`run, this`kids, scb
      ensures Valid() && old(run.labels) <= run.labels && place == Draining(old(place).last)
      ensures name == "" || name !in names ==>
        scb[..] == old(scb[..]) && reply == if name == "" then MissingName else NotFound
      ensures name != "" && name in names ==>
        (var i := FirstNamed(names, name);
         var a := old(scb[..])[i];
         if a.running then reply == AlreadyRunning && scb[..] == old(scb[..])[i := Cleared(a.(desired := true))]
         else scb[..] == old(scb[..])[i := Started(a, o, now)]
              && reply == if o.Forked? && o.ok then StartedWith(o.pid) else FailedToStart)
    {
      hide Next, IsRun;
      if name == "" {
        NoEffect();
        return MissingName;
      }
      var found := FindScb(name);
      if found.None? {
        NoEffect();
        return NotFound;
      }
      FirstIs(names, name, found.value);
      reply := StartScb(found.value, o);
    }

    method StartScb(i: nat, o: SpawnResult) returns (reply: Reply)
      requires Valid() && place.Serving? && CanFork(View(), o) && i < scb.Length
      modifies this`place, this`run, this`kids, scb
      ensures Valid() && old(run.labels) <= run.labels && place == Draining(old(place).last)
      ensures old(scb[i]).running ==>
        reply == AlreadyRunning && scb[..] == old(scb[..])[i := Cleared(old(scb[i]).(desired := true))]
      ensures !old(scb[i]).running ==> (
        && scb[..] == old(scb[..])[i := Started(old(scb[i]), o, now)]
        && reply == if o.Forked? && o.ok then StartedWith(o.pid) else FailedToStart)
    {
      hide IsRun, EnvStep, MoveStep, SpawnStep, ReapStep, CloseStep, ReloadStep, Started;
      if scb[i].running {
        place := Draining(place.last);
        scb[i] := scb[i].(desired := true, pending := false, restartAt := 0);
        Record(StartRunning(i));
        return AlreadyRunning;
      }
      ghost var was := View();
      reply := StartDown(i, o);
      place := Draining(place.last);
      assert View() == was.(place := place, kids := Supervision.Kids(was, o),
                            apps := was.apps[i := Started(was.apps[i], o, now)]);
      Record(Start(i, o));
    }

    method StartDown(i: nat, o: SpawnResult) returns (reply: Reply)
      requires i < scb.Length && !scb[i].running
      modifies this`kids, scb
      ensures scb[..] == old(scb[..])[i := Started(old(scb[i]), o, now)] && kids == Supervision.Kids(old(View()), o)
      ensures reply == if o.Forked? && o.ok then StartedWith(o.pid) else FailedToStart
    {
      scb[i] := scb[i].(desired := true, pending := false, restartAt := 0);
      SpawnScb(i, o);
      if o.Forked? && o.ok { return StartedWith(o.pid); }
      scb[i] := scb[i].(desired := false);
      return FailedToStart;
    }

    /** supervisor_handle_control_stop; killed is the process that gets SIGTERM. */
    method HandleStop(name: string) returns (reply: Reply, killed: Option<int>)
      requires Valid() && place.Serving?
      modifies this`place, this`run, scb
      ensures Valid() && old(run.labels) <= run.labels && place == Draining(old(place).last)
      ensures name == "" || name !in names ==>
        scb[..] == old(scb[..]) && killed == None && reply == if name == "" then MissingName else NotFound
      ensures name != "" && name in names ==>
        (var i := FirstNamed(names, name);
         var a := old(scb[..])[i];
         scb[..] == old(scb[..])[i := Stopped(a)]
         && reply == (if a.running then Stopping else AlreadyStopped)
         && killed == (if a.running then Some(a.pid) else None))
    {
      hide Next, IsRun;
      if name == "" {
        NoEffect();
        return MissingName, None;
      }
      var found := FindScb(name);
      if found.None? {
        NoEffect();
        return NotFound, None;
      }
      FirstIs(names, name, found.value);
      reply, killed := StopScb(found.value);
    }

    method StopScb(i: nat) returns (reply: Reply, killed: Option<int>)
      requires Valid() && place.Serving? && i < scb.Length
      modifies this`place, this`run, scb
      ensures Valid() && old(run.labels) <= run.labels && place == Draining(old(place).last)
      ensures scb[..] == old(scb[..])[i := Stopped(old(scb[i]))]
      ensures reply == if old(scb[i]).running then Stopping else AlreadyStopped
      ensures killed == if old(scb[i]).running then Some(old(scb[i]).pid) else None
    {
      hide IsRun, EnvStep, MoveStep, SpawnStep, ReapStep, CloseStep, ReloadStep;
      place := Draining(place.last);
      scb[i] := scb[i].(desired := false, pending := false, restartAt := 0);
      reply, killed := AlreadyStopped, None;
      if scb[i].running { reply, killed := Stopping, Some(scb[i].pid); }
      Record(Label.Stop(i));
    }

    /** A request that changes nothing. */
    ghost method NoEffect()
      requires Valid() && place.Serving?
      modifies this`place, this`run
      ensures Valid() && old(run.labels) <= run.labels && place == Draining(old(place).last)
    {
      place := Draining(place.last);
      Record(Move);
    }

    /** One request at most. */
    method Serve(request: Request) returns (reply: Option<Reply>)
      requires Valid() && place.Serving?
      modifies this`place, this`run, this`kids, scb
      ensures Valid() && old(run.labels) <= run.labels && place == Draining(old(place).last)
      ensures request.NoChange? ==> scb[..] == old(scb[..])
      ensures reply.None? <==> request.NoChange?
    {
      match request
      case StartApp(name, o) =>
        var r := HandleStart(name, Admitted(o, kids + orphans));
        reply := Some(r);
      case StopApp(name) =>
        var r, killed := HandleStop(name);
        reply := Some(r);
      case NoChange =>
        NoEffect();
        reply := None;
    }

    /** The streams whose end was read are closed. */
    method CloseStreams(closing: seq<(nat, bool)>)
      requires Valid() && (place.Draining? || place.WindDraining?)
      modifies this`run, scb
      ensures Valid() && old(run.labels) <= run.labels && OnlyClosed(old(scb[..]), scb[..])
      ensures Shut(scb[..], closing, |closing|)
    {
      hide Valid, Next, IsRun, OnlyClosed;
      NoneClosed(scb[..]);
      for k := 0 to |closing|
        invariant Valid() && old(run.labels) <= run.labels && OnlyClosed(old(scb[..]), scb[..])
        invariant Shut(scb[..], closing, k)
      {
        if closing[k].0 < scb.Length {
          ClosedMore(old(scb[..]), scb[..], closing[k].0, closing[k].1);
          CloseOne(closing[k].0, closing[k].1);
        }
      }
    }

    method CloseOne(i: nat, out: bool)
      requires Valid() && (place.Draining? || place.WindDraining?) && i < scb.Length
      modifies this`run, scb
      ensures Valid() && old(run.labels) <= run.labels
      ensures
        var was := old(scb[i]);
        scb[..] == old(scb[..])[i := if out then was.(outOpen := false) else was.(errOpen := false)]
    {
      hide EnvStep, ReapStep, SpawnStep, MoveStep, ReloadStep, RequestStep, IsRun;
      scb[i] := if out then scb[i].(outOpen := false) else scb[i].(errOpen := false);
      Record(CloseStream(i, out));
    }

    method EndDraining()
      requires Valid() && place.Draining?
      modifies this`place, this`run
      ensures Valid() && old(run.labels) <= run.labels
      ensures place == if old(place).last then Winding else Restarting(0, now)
    {
      place := if place.last then Winding else Restarting(0, now);
      Record(Move);
    }

    /** No stop signal came up to where it is looked at, of the reaping up to wait n. */
    ghost predicate Unalarmed(c: Circumstances, stop: int, n: nat)
      reads scb
    {
      stop == 0 && NoAlarms(c.restarting, scb.Length) && NoAlarms(c.reaping, n) && NoAlarm(c.beforeSignal)
    }

    /** One pass of the main loop, whatever happens around it. It is left when a stop
        signal is found, even one that comes while others are forked or waited for, and
        only after that pass has served its request and closed the streams at their end. */
    method Pass(c: Circumstances) returns (running: bool, killed: seq<int>, reply: Option<Reply>)
      requires Valid() && place == Restarting(0, now) && |c.outcomes| == scb.Length
      modifies this`place, this`run, this`kids, scb
      modifies this`orphans, this`dead, this`now, this`gotSignalStop, this`gotSignalReload
      ensures Valid() && old(run.labels) <= run.labels && old(now) <= now
      ensures place == if running then Restarting(0, now) else Winding
      ensures running ==> Unalarmed(c, old(gotSignalStop), 1) && killed == []
      ensures !running ==> !Unalarmed(c, old(gotSignalStop), |c.reaping|)
      ensures reply.None? <==> c.request.NoChange?
      ensures Shut(scb[..], c.closing, |c.closing|)
    {
      hide Valid, Next, IsRun, Turns, InUse, AllWaited, OnlyClosed, EnvStep, View, RunningPids, FirstNamed, NoAlarm,
        Shut;
      ghost var used := StartPendingRestarts(c.restarting, c.outcomes);
      ghost var waited := ReapChildren(c.reaping);
      Happen(c.beforeSignal);
      running, killed := ForwardStop();
      Happen(c.beforeServing);
      reply := Serve(c.request);
      CloseStreams(c.closing);
      Happen(c.afterwards);
      EndDraining();
    }

    method AnyStreamOpenScb() returns (r: bool)
      ensures r == AnyStreamOpen(scb[..])
    {
      for i := 0 to scb.Length
        invariant forall k :: 0 <= k < i ==> !scb[k].outOpen && !scb[k].errOpen
      {
        if scb[i].outOpen || scb[i].errOpen {
          assert scb[..][i].outOpen || scb[..][i].errOpen;
          return true;
        }
      }
      return false;
    }

    method EndWinding(more: bool)
      requires Valid() && place.Winding? && more == (AnyRunning(scb[..]) || AnyStreamOpen(scb[..]))
      modifies this`place, this`run
      ensures Valid() && old(run.labels) <= run.labels && place == if more then WindReaping else Finished
    {
      place := if more then WindReaping else Finished;
      Record(Move);
    }

    method EndWindDraining()
      requires Valid() && place.WindDraining?
      modifies this`place, this`run
      ensures Valid() && old(run.labels) <= run.labels && place == Winding
    {
      place := Winding;
      Record(Move);
    }

    /** The wind-down, for as many passes as are described: it ends exactly when no
        application runs and no stream is open, and then no own child is left. */
    method WindDown(world: seq<WindCircumstances>) returns (ended: bool)
      requires Valid() && place == Winding
      modifies this`place, this`run, this`kids, scb
      modifies this`orphans, this`dead, this`now, this`gotSignalStop, this`gotSignalReload
      ensures Valid() && old(run.labels) <= run.labels && kids <= old(kids)
      ensures ended ==> place == Finished && kids == {} && !AnyRunning(scb[..]) && !AnyStreamOpen(scb[..])
      ensures !ended ==> place == WindReaping && (AnyRunning(scb[..]) || AnyStreamOpen(scb[..]))
    {
      hide Valid, Next, IsRun, AllWaited, OnlyClosed, EnvStep, Inv;
      var k := 0;
      var anyRunning := AnyRunningScb();
      var anyOpen := AnyStreamOpenScb();
      EndWinding(anyRunning || anyOpen);
      while (anyRunning || anyOpen) && k < |world|
        invariant Valid() && old(run.labels) <= run.labels && 0 <= k <= |world| && kids <= old(kids)
        invariant anyRunning == AnyRunning(scb[..]) && anyOpen == AnyStreamOpen(scb[..])
        invariant place == if anyRunning || anyOpen then WindReaping else Finished
        decreases |world| - k
      {
        ghost var waited := ReapChildren(world[k].reaping);
        CloseStreams(world[k].closing);
        EndWindDraining();
        anyRunning := AnyRunningScb();
        anyOpen := AnyStreamOpenScb();
        EndWinding(anyRunning || anyOpen);
        k := k + 1;
      }
      ended := !(anyRunning || anyOpen);
      if ended { NoneLeft(); }
    }

    lemma NoneLeft()
      requires Valid() && !AnyRunning(scb[..])
      ensures kids == {}
    {
      Holds();
      AllReaped(View());
    }
  }

  lemma GoodSystem(s: State)
    requires Inv(s)
    ensures GoodOs(s.kids, s.orphans, s.dead, s.stop)
  {
  }
}
