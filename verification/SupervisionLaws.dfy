/** What the steps of a run do to an application, in plain terms: what must happen next,
    and what each step leaves behind. */
module SupervisionLaws {
  import opened CText
  import opened Supervision
  import opened SupervisionRuns

  /** Where each kind of step belongs. */
  lemma StepsHavePlaces(s: State, l: Label, s': State)
    requires Next(s, l, s')
    ensures l.Spawn? ==> s.place.Boot? || s.place.Restarting?
    ensures l.Reap? ==> (s.place.Reaping? || s.place.WindReaping?) && l.pid in s.dead
    ensures l.Kill? ==> s.place.Forwarding?
    ensures l.Start? || l.StartRunning? || l.Stop? ==> s.place.Serving?
    ensures l.CloseStream? ==> s.place.Draining? || s.place.WindDraining?
    ensures l.Reload? ==> s.place.Finished?
  {
    hide EnvStep, MoveStep;
  }

  /** A restart that is due cannot be passed over: while no stop signal waits, all that
      can happen at its turn is that it is tried. */
  lemma DueIsTried(r: Run, n: nat, i: nat)
    requires IsRun(r) && n < |r.labels| && r.labels[n] != Env
    requires var s := r.states[n];
      s.place.Restarting? && s.place.i == i < |s.apps| && s.apps[i].pending && s.apps[i].restartAt <= s.place.time
      && s.stop == 0
    ensures r.labels[n].Spawn? && r.labels[n].i == i
  {
    hide EnvStep, ReapStep, CloseStep, ReloadStep, RequestStep;
    PendingExact(r, n, i);
    assert NextAt(r, n);
    StepsHavePlaces(r.states[n], r.labels[n], r.states[n + 1]);
  }

  /** Nothing else is tried there. */
  lemma OnlyDueIsTried(r: Run, n: nat, i: nat)
    requires IsRun(r) && n < |r.labels| && r.states[n].place.Restarting? && r.labels[n].Spawn? && r.labels[n].i == i
    ensures var s := r.states[n];
      && s.place.i == i < |s.apps| && s.apps[i].pending && s.apps[i].restartAt <= s.place.time && s.stop == 0
      && !s.apps[i].running
  {
    assert NextAt(r, n);
  }

  /** At startup exactly the wanted applications are tried. */
  lemma WantedIsTried(r: Run, n: nat, i: nat)
    requires IsRun(r) && n < |r.labels| && r.labels[n] != Env && r.states[n].place == Boot(i) && i < |r.states[n].apps|
    ensures if r.states[n].apps[i].autostart then r.labels[n].Spawn? && r.labels[n].i == i else r.labels[n].Move?
  {
    hide EnvStep, ReapStep, CloseStep, ReloadStep, RequestStep;
    Always(r, n);
    assert NextAt(r, n);
    StepsHavePlaces(r.states[n], r.labels[n], r.states[n + 1]);
    assert IsInitial(r.states[n].apps[i]);
  }

  /** A stop signal that is found goes to every running application. */
  lemma RunningIsSignalled(r: Run, n: nat, i: nat)
    requires IsRun(r) && n < |r.labels| && r.labels[n] != Env
    requires var s := r.states[n]; s.place.Forwarding? && s.place.i == i < |s.apps| && s.apps[i].running
    ensures r.labels[n] == Kill(i)
  {
    hide EnvStep, ReapStep, CloseStep, ReloadStep, RequestStep;
    assert NextAt(r, n);
    StepsHavePlaces(r.states[n], r.labels[n], r.states[n + 1]);
  }

  /** An exited process is waited for before the supervisor goes on. */
  lemma DeadIsReaped(r: Run, n: nat)
    requires IsRun(r) && n < |r.labels| && r.labels[n] != Env && r.states[n].dead != {}
    requires r.states[n].place.Reaping? || r.states[n].place.WindReaping?
    ensures r.labels[n].Reap? && r.labels[n].pid in r.states[n].dead
  {
    hide EnvStep, CloseStep, ReloadStep, RequestStep;
    assert NextAt(r, n);
    StepsHavePlaces(r.states[n], r.labels[n], r.states[n + 1]);
  }

  /** An application after an attempt to start it at a time. */
  ghost predicate Tried(b: Scb, o: SpawnResult, again: bool, t: int) {
    match o
    case Forked(pid, out, err, _) =>
      b.running && b.pid == pid && b.startedAt == t && b.outOpen == out && b.errOpen == err && !b.pending
    case _ => !b.running && b.pending == again && (again ==> b.restartAt == t + 1)
  }

  /** It runs, or is tried again one clock second later if it restarts by itself. */
  lemma SpawnLeaves(r: Run, n: nat, i: nat, o: SpawnResult)
    requires IsRun(r) && n < |r.labels| && r.labels[n] == Spawn(i, o)
    ensures i < |r.states[n].apps| == |r.states[n + 1].apps|
    ensures var a, b := r.states[n].apps[i], r.states[n + 1].apps[i];
      Tried(b, o, a.autorestart, r.states[n].now) && b.desired && a.desired
    ensures forall j :: 0 <= j < |r.states[n].apps| && j != i ==> r.states[n + 1].apps[j] == r.states[n].apps[j]
    ensures r.states[n + 1].kids == r.states[n].kids + if o.Forked? then {o.pid} else {}
  {
    hide EnvStep, ReapStep, CloseStep, ReloadStep, RequestStep, MoveStep;
    Always(r, n);
    assert NextAt(r, n);
    if r.states[n].place.Boot? { assert IsInitial(r.states[n].apps[i]); }
  }

  /** START of an application that is down: it runs and is wanted, or is not wanted. */
  lemma StartLeaves(r: Run, n: nat, i: nat, o: SpawnResult)
    requires IsRun(r) && n < |r.labels| && r.labels[n] == Start(i, o)
    ensures i < |r.states[n].apps| == |r.states[n + 1].apps| && !r.states[n].apps[i].running
    ensures var b := r.states[n + 1].apps[i];
      && !b.pending && b.desired == (o.Forked? && o.ok)
      && b.running == o.Forked? && (o.Forked? ==> b.pid == o.pid && b.startedAt == r.states[n].now)
    ensures forall j :: 0 <= j < |r.states[n].apps| && j != i ==> r.states[n + 1].apps[j] == r.states[n].apps[j]
    ensures r.states[n + 1].kids == r.states[n].kids + if o.Forked? then {o.pid} else {}
  {
    assert NextAt(r, n);
  }

  /** START of one that runs: it is wanted, and keeps running. */
  lemma StartRunningLeaves(r: Run, n: nat, i: nat)
    requires IsRun(r) && n < |r.labels| && r.labels[n] == StartRunning(i)
    ensures i < |r.states[n].apps|
    ensures var a := r.states[n].apps[i];
      a.running && r.states[n + 1].apps == r.states[n].apps[i := a.(desired := true, pending := false, restartAt := 0)]
  {
    assert NextAt(r, n);
  }

  /** STOP: it is not wanted, and no restart is pending. */
  lemma StopLeaves(r: Run, n: nat, i: nat)
    requires IsRun(r) && n < |r.labels| && r.labels[n] == Stop(i)
    ensures i < |r.states[n].apps|
    ensures var a := r.states[n].apps[i];
      r.states[n + 1].apps == r.states[n].apps[i := a.(desired := false, pending := false, restartAt := 0)]
  {
    assert NextAt(r, n);
  }

  /** An own child was waited for: its application is down, and will be tried again one
      clock second later exactly when it is wanted, restarts by itself, and no stop signal
      waits. */
  lemma ReapLeaves(r: Run, n: nat, i: nat, pid: int)
    requires IsRun(r) && n < |r.labels| && r.labels[n] == Reap(pid)
    requires i < |r.states[n].apps| && Owns(r.states[n].apps[i], pid)
    ensures |r.states[n + 1].apps| == |r.states[n].apps|
    ensures var a, b := r.states[n].apps[i], r.states[n + 1].apps[i];
      && !b.running && b.desired == a.desired && !b.outOpen && !b.errOpen
      && (b.pending <==> a.desired && a.autorestart && r.states[n].stop == 0)
      && (b.pending ==> b.restartAt == r.states[n].now + 1)
    ensures r.states[n + 1].kids == r.states[n].kids - {pid}
  {
    hide EnvStep, SpawnStep, CloseStep, ReloadStep, RequestStep, MoveStep;
    OneToOne(r, n);
    ReapChangesOwner(r, n, pid);
    PendingExact(r, n, i);
    assert NextAt(r, n);
    assert pid in r.states[n].kids;
    var j :| 0 <= j < |r.states[n].apps| && Owns(r.states[n].apps[j], pid)
             && r.states[n + 1].apps
                == r.states[n].apps[j := Reaped(r.states[n].apps[j], r.states[n].stop, r.states[n].now)];
    assert j == i;
  }

  /** A process that was waited for is gone, own or adopted, and no other is. */
  lemma ReapedIsGone(r: Run, n: nat, pid: int)
    requires IsRun(r) && n < |r.labels| && r.labels[n] == Reap(pid)
    ensures var s, t := r.states[n], r.states[n + 1];
      t.kids == s.kids - {pid} && t.orphans == s.orphans - {pid} && t.dead == s.dead - {pid}
  {
    hide EnvStep, SpawnStep, CloseStep, ReloadStep, RequestStep, MoveStep;
    assert NextAt(r, n);
  }

  /** An application as it is when everything begins. */
  ghost predicate Fresh(a: Scb) {
    a.desired == a.autostart && !a.running && !a.pending && a.pid == 0 && !a.outOpen && !a.errOpen
  }

  /** At the start of a run and after a reload. */
  lemma BeginsFresh(r: Run, n: nat)
    requires IsRun(r) && n < |r.states| && (n == 0 || r.labels[n - 1].Reload?)
    ensures var s := r.states[n];
      && s.place == Boot(0) && s.kids == {} && s.stop == 0 && !s.reload
      && forall i :: 0 <= i < |s.apps| ==> Fresh(s.apps[i])
    ensures n > 0 ==> r.labels[n - 1].apps == r.states[n].apps && r.states[n - 1].reload
  {
    if n > 0 {
      assert NextAt(r, n - 1);
      EndsClean(r, n - 1);
    }
    forall i | 0 <= i < |r.states[n].apps| ensures Fresh(r.states[n].apps[i]) { assert IsInitial(r.states[n].apps[i]); }
  }

  /** The order of a pass, and of the wind-down: where the supervisor is after a step of
      its own. */
  function Onward(s: State, l: Label): Place {
    match s.place
    case Boot(i) => if i < |s.apps| then Boot(i + 1) else Restarting(0, s.now)
    case Restarting(i, time) => if i < |s.apps| then Restarting(i + 1, time) else Reaping
    case Reaping => if s.dead == {} then Checking else Reaping
    case Checking => if s.stop == 0 then Serving(false) else Forwarding(0, s.stop)
    case Forwarding(i, signal) => if i < |s.apps| then Forwarding(i + 1, signal) else Serving(true)
    case Serving(last) => Draining(last)
    case Draining(last) => if l.CloseStream? then s.place else if last then Winding else Restarting(0, s.now)
    case Winding => if AnyRunning(s.apps) || AnyStreamOpen(s.apps) then WindReaping else Finished
    case WindReaping => if s.dead == {} then WindDraining else WindReaping
    case WindDraining => if l.CloseStream? then s.place else Winding
    case Finished => if s.reload then Boot(0) else Exited
    case Exited => Exited
  }

  lemma InOrder(r: Run, n: nat)
    requires IsRun(r) && n < |r.labels|
    ensures r.states[n + 1].place == if r.labels[n].Env? then r.states[n].place else Onward(r.states[n], r.labels[n])
  {
    hide ReapStep, MoveStep, AnyRunning, AnyStreamOpen;
    if r.labels[n].Move? || r.labels[n].Kill? {
      MoveLeaves(r, n);
    } else {
      assert NextAt(r, n);
      if r.labels[n].Reap? { ReapStays(r.states[n], r.labels[n].pid, r.states[n + 1]); }
    }
  }

  lemma ReapStays(s: State, pid: int, s': State)
    requires ReapStep(s, pid, s')
    ensures s'.place == s.place && s.dead != {} && (s.place.Reaping? || s.place.WindReaping?)
  {
  }

  /** Leading on and sending a signal change nothing but the place; a stop signal that was
      looked at is taken. */
  lemma MoveLeaves(r: Run, n: nat)
    requires IsRun(r) && n < |r.labels| && (r.labels[n].Move? || r.labels[n].Kill?)
    ensures var s := r.states[n];
      r.states[n + 1] == s.(place := Onward(s, r.labels[n]), stop := if s.place.Checking? then 0 else s.stop)
  {
    assert NextAt(r, n);
  }

  /** Closing a stream leaves the other stream open, and all else as it was. */
  lemma CloseLeaves(r: Run, n: nat, i: nat, out: bool)
    requires IsRun(r) && n < |r.labels| && r.labels[n] == CloseStream(i, out)
    ensures i < |r.states[n].apps|
    ensures var a := r.states[n].apps[i];
      r.states[n + 1].apps == r.states[n].apps[i := a.(outOpen := a.outOpen && !out, errOpen := a.errOpen && out)]
  {
    assert NextAt(r, n);
  }

  /** Around the supervisor the clock goes on, and signals are not lost; nothing else it
      knows of changes. */
  lemma EnvLeaves(r: Run, n: nat)
    requires IsRun(r) && n < |r.labels| && r.labels[n].Env?
    ensures var s, t := r.states[n], r.states[n + 1];
      && t.place == s.place && t.apps == s.apps && t.kids == s.kids && t.now >= s.now
      && (s.stop != 0 ==> t.stop != 0) && (s.reload ==> t.reload) && (t.reload && !s.reload ==> t.stop != 0)
  {
    assert NextAt(r, n);
  }

  /** What is shown of an application, by its child and by what is wanted. */
  lemma ShownAsItIs(r: Run, n: nat, i: nat)
    requires IsRun(r) && n < |r.states| && i < |r.states[n].apps|
    ensures var a := r.states[n].apps[i]; var child := a.pid in r.states[n].kids;
      && (StatusOf(a).ShownRunning? <==> child && a.desired)
      && (StatusOf(a).ShownStopping? <==> child && !a.desired)
      && (StatusOf(a).ShownStopped? <==> !child)
  {
    OneToOne(r, n);
  }
}
