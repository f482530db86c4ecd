/** What holds over whole runs of the supervisor. */
module SupervisionRuns {
  import opened CText
  import opened Supervision

  /** states[0] is where the run starts; labels[k] leads from states[k] to states[k + 1]. */
  datatype Run = Run(states: seq<State>, labels: seq<Label>)

  ghost predicate IsRun(r: Run) {
    && |r.states| == |r.labels| + 1
    && Init(r.states[0])
    && forall k :: 0 <= k < |r.labels| ==> NextAt(r, k)
  }

  ghost predicate NextAt(r: Run, k: nat)
    requires k < |r.labels| < |r.states|
  {
    Next(r.states[k], r.labels[k], r.states[k + 1])
  }

  /** The invariant holds in every state of every run. */
  lemma {:induction false} Always(r: Run, n: nat)
    requires IsRun(r) && n < |r.states|
    ensures Inv(r.states[n])
    decreases n
  {
    hide Inv, Next, Init;
    if n == 0 {
      InitHolds(r.states[0]);
    } else {
      Always(r, n - 1);
      assert NextAt(r, n - 1);
      NextKeeps(r.states[n - 1], r.labels[n - 1], r.states[n]);
    }
  }

  /** No application ever has two processes and no child is lost: in every state of
      every run, process id by process id, running applications and own unreaped children
      are the same. */
  lemma OneToOne(r: Run, n: nat)
    requires IsRun(r) && n < |r.states|
    ensures var s := r.states[n];
      && (forall i :: 0 <= i < |s.apps| ==> (s.apps[i].running <==> s.apps[i].pid in s.kids))
      && (forall i, j :: 0 <= i < j < |s.apps| && s.apps[i].running && s.apps[j].running ==>
                           s.apps[i].pid != s.apps[j].pid)
      && (forall p :: p in s.kids <==> exists i :: 0 <= i < |s.apps| && Owns(s.apps[i], p))
  {
    Always(r, n);
    var s := r.states[n];
    forall i | 0 <= i < |s.apps| ensures s.apps[i].running <==> s.apps[i].pid in s.kids {
      assert GoodScb(s.apps[i]);
    }
    forall p ensures p in s.kids <==> exists i :: 0 <= i < |s.apps| && Owns(s.apps[i], p) {
      if p in s.kids { assert Owned(s.apps, p); }
    }
  }

  /** The process a step sends a signal to: forwarding a stop signal, or STOP of an
      application that is running. */
  function Target(s: State, l: Label): Option<int> {
    match l
    case Kill(i) => if i < |s.apps| then Some(s.apps[i].pid) else None
    case Stop(i) => if i < |s.apps| && s.apps[i].running then Some(s.apps[i].pid) else None
    case _ => None
  }

  /** Every signal goes to an own child that was not reaped yet. */
  lemma KillsOwnChildren(r: Run, n: nat)
    requires IsRun(r) && n < |r.labels| && Target(r.states[n], r.labels[n]).Some?
    ensures Target(r.states[n], r.labels[n]).value in r.states[n].kids
  {
    Always(r, n);
    assert NextAt(r, n);
  }

  /** Reaping a process that is not an own child changes no application; reaping an own
      child changes exactly the one that held it, and marks it down. */
  lemma ReapChangesOwner(r: Run, n: nat, pid: int)
    requires IsRun(r) && n < |r.labels| && r.labels[n] == Reap(pid)
    ensures pid !in r.states[n].kids ==> r.states[n + 1].apps == r.states[n].apps
    ensures pid in r.states[n].kids ==>
      exists i :: 0 <= i < |r.states[n].apps| && Owns(r.states[n].apps[i], pid)
        && r.states[n + 1].apps == r.states[n].apps[i := Reaped(r.states[n].apps[i], r.states[n].stop, r.states[n].now)]
  {
    hide EnvStep, MoveStep, SpawnStep, CloseStep, ReloadStep, RequestStep;
    Always(r, n);
    assert NextAt(r, n);
    var s := r.states[n];
    if pid in s.kids {
      var j := OwnerOf(s.kids, s.apps, pid);
      assert s.apps[j].pid == pid;
      var i :| 0 <= i < |s.apps| && s.apps[i].pid == pid
        && r.states[n + 1].apps == s.apps[i := Reaped(s.apps[i], s.stop, s.now)];
      assert GoodScb(s.apps[i]);
      assert Owns(s.apps[i], pid);
    } else if i :| 0 <= i < |s.apps| && s.apps[i].pid == pid {
      NotOwned(s, pid, i);
      assert false;
    }
  }

  /** Pending means wanted, restarted by itself and down; and in the main loop, while no
      stop signal waits, what is wanted, restarted by itself and down is pending. */
  lemma PendingExact(r: Run, n: nat, i: nat)
    requires IsRun(r) && n < |r.states| && i < |r.states[n].apps|
    ensures var a := r.states[n].apps[i]; a.pending ==> a.desired && a.autorestart && !a.running
    ensures var a := r.states[n].apps[i];
      InLoop(r.states[n].place) && r.states[n].stop == 0 ==> (a.pending <==> a.desired && a.autorestart && !a.running)
  {
    Always(r, n);
    assert GoodScb(r.states[n].apps[i]);
    if InLoop(r.states[n].place) && r.states[n].stop == 0 { assert !Lost(r.states[n].apps[i]); }
  }

  datatype Status = ShownRunning | ShownStopping | ShownStopped

  /** supervisor_scb_status */
  function StatusOf(a: Scb): Status {
    if a.running && a.desired then ShownRunning else if a.running then ShownStopping else ShownStopped
  }

  /** The status shown is true: an application is down exactly when none of the own
      unreaped children is its process, and nothing that is stopping will be restarted. */
  lemma StatusIsTrue(r: Run, n: nat, i: nat)
    requires IsRun(r) && n < |r.states| && i < |r.states[n].apps|
    ensures
      var a := r.states[n].apps[i];
      StatusOf(a).ShownStopped? <==> !exists p :: p in r.states[n].kids && Owns(a, p)
    ensures var a := r.states[n].apps[i]; StatusOf(a).ShownStopping? ==> !Reaped(a, 0, r.states[n].now).pending
  {
    Always(r, n);
    var a := r.states[n].apps[i];
    assert GoodScb(a);
    if a.running { assert Owns(a, a.pid); }
  }

  /** The step forks a process for application i. */
  predicate Forks(l: Label, i: nat) {
    (l.Spawn? || l.Start?) && l.i == i && l.o.Forked?
  }

  predicate StartsApp(l: Label, i: nat) {
    (l.Start? || l.StartRunning?) && l.i == i
  }

  /** An application that nobody wants, once everything was started. */
  predicate Quiet(s: State, i: nat) {
    i < |s.apps| && !s.apps[i].desired && !s.place.Boot?
  }

  lemma QuietStep(s: State, l: Label, s': State, i: nat)
    requires Inv(s) && Next(s, l, s') && Quiet(s, i) && !StartsApp(l, i) && !l.Reload?
    ensures Quiet(s', i) && !Forks(l, i)
  {
    hide Inv;
  }

  /** After a STOP, no run forks the application again until it is started or the
      configuration is reloaded. */
  lemma {:induction false} StopStays(r: Run, m: nat, n: nat, i: nat)
    requires IsRun(r) && m < n <= |r.labels| && r.labels[m] == Stop(i)
    requires forall k :: m < k < n ==> !StartsApp(r.labels[k], i) && !r.labels[k].Reload?
    ensures Quiet(r.states[n], i)
    ensures forall k :: m < k < n ==> !Forks(r.labels[k], i)
    decreases n
  {
    hide Inv, Next, EnvStep, MoveStep, SpawnStep, ReapStep, CloseStep, ReloadStep;
    Always(r, n - 1);
    assert NextAt(r, n - 1);
    if n == m + 1 {
      StopQuiets(r.states[m], i, r.states[n]);
    } else {
      StopStays(r, m, n - 1, i);
      QuietStep(r.states[n - 1], r.labels[n - 1], r.states[n], i);
    }
  }

  lemma StopQuiets(s: State, i: nat, s': State)
    requires Next(s, Stop(i), s')
    ensures Quiet(s', i)
  {
  }

  predicate WindDown(p: Place) {
    p.Winding? || p.WindReaping? || p.WindDraining? || p.Finished? || p.Exited?
  }

  function RunningCount(apps: seq<Scb>): nat {
    if apps == [] then 0 else RunningCount(Pop(apps)) + if Last(apps).running then 1 else 0
  }

  lemma {:induction false} CountUpdate(apps: seq<Scb>, i: nat, b: Scb)
    requires i < |apps|
    ensures RunningCount(apps[i := b])
         == RunningCount(apps) - (if apps[i].running then 1 else 0) + if b.running then 1 else 0
    decreases |apps|
  {
    if i == |apps| - 1 {
      assert Pop(apps[i := b]) == Pop(apps);
    } else {
      assert Pop(apps[i := b]) == Pop(apps)[i := b];
      CountUpdate(Pop(apps), i, b);
    }
  }

  /** In the wind-down nothing forks, even if reaping schedules a restart; the number of
      running applications drops with each own child reaped and never grows. */
  lemma WindDownOnlyReaps(r: Run, n: nat)
    requires IsRun(r) && n < |r.labels| && WindDown(r.states[n].place) && !r.labels[n].Reload?
    ensures WindDown(r.states[n + 1].place)
    ensures forall i: nat :: !Forks(r.labels[n], i)
    ensures
      var reaped := if r.labels[n].Reap? && r.labels[n].pid in r.states[n].kids then 1 else 0;
      RunningCount(r.states[n + 1].apps) + reaped == RunningCount(r.states[n].apps)
  {
    hide Inv, EnvStep, RequestStep, ReloadStep;
    assert NextAt(r, n);
    var s, l, s' := r.states[n], r.labels[n], r.states[n + 1];
    if l.Reap? {
      ReapChangesOwner(r, n, l.pid);
      if l.pid in s.kids {
        var i :| 0 <= i < |s.apps| && Owns(s.apps[i], l.pid)
                 && s'.apps == s.apps[i := Reaped(s.apps[i], s.stop, s.now)];
        CountUpdate(s.apps, i, Reaped(s.apps[i], s.stop, s.now));
      }
    } else if l.CloseStream? {
      CountUpdate(s.apps, l.i, s'.apps[l.i]);
    } else if l.Env? {
      EnvLeavesApps(s, s');
    } else {
      NotARequest(s, l, s');
    }
  }

  lemma EnvLeavesApps(s: State, s': State)
    requires EnvStep(s, s')
    ensures s'.apps == s.apps && s'.place == s.place
  {
  }

  lemma NotARequest(s: State, l: Label, s': State)
    requires Next(s, l, s') && WindDown(s.place)
    ensures !l.Start? && !l.StartRunning? && !l.Stop? && !l.Spawn?
  {
  }

  /** The wind-down ends only when every own child was reaped and every stream closed:
      from then on nothing refers to the configuration that a reload frees. */
  lemma EndsClean(r: Run, n: nat)
    requires IsRun(r) && n < |r.states| && (r.states[n].place.Finished? || r.states[n].place.Exited?)
    ensures r.states[n].kids == {}
    ensures forall i :: 0 <= i < |r.states[n].apps| ==>
      var a := r.states[n].apps[i]; !a.running && !a.outOpen && !a.errOpen
  {
    Always(r, n);
    AllReaped(r.states[n]);
    forall i | 0 <= i < |r.states[n].apps|
      ensures var a := r.states[n].apps[i]; !a.running && !a.outOpen && !a.errOpen
    {
      assert GoodScb(r.states[n].apps[i]);
    }
  }
}
