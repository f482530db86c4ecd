/** When the supervisor restarts an application by itself. */
module SupervisionTiming {
  import opened CText
  import opened Supervision
  import opened SupervisionRuns

  /** The step schedules a restart of application i: its process was reaped, or an
      attempt to start it did not get as far as a process. */
  predicate Schedules(s: State, l: Label, s': State, i: nat) {
    && i < |s.apps| && i < |s'.apps|
    && ((l.Reap? && Owns(s.apps[i], l.pid)) || (l.Spawn? && l.i == i && !l.o.Forked?))
    && s'.apps[i].pending && s'.apps[i].restartAt == s.now + RESTART_DELAY
  }

  predicate StillPending(s: State, l: Label, s': State, i: nat) {
    && !Forks(l, i) && !l.Reload?
    && i < |s.apps| && i < |s'.apps| && s.apps[i].pending && s.apps[i].restartAt == s'.apps[i].restartAt
  }

  /** A restart is pending because this step scheduled it, or it was pending before. */
  lemma PendingStep(s: State, l: Label, s': State, i: nat)
    requires Inv(s) && Next(s, l, s') && i < |s'.apps| && s'.apps[i].pending
    ensures Schedules(s, l, s', i) || StillPending(s, l, s', i)
  {
    hide GoodOs, Linked, AtPlace, EnvStep, ReapStep, MoveStep;
    if l.Reap? {
      ReapPending(s, l.pid, s', i);
    } else if l.Env? {
      EnvLeavesApps(s, s');
    } else if l.Move? {
      MoveLeavesApps(s, s');
    } else if l.Reload? {
      ReloadedNotPending(s, l.apps, s', i);
      assert false;
    } else if l.Spawn? {
      SpawnPending(s, l.i, l.o, s', i);
    } else {
      assert GoodScb(s.apps[i]);
    }
  }

  lemma SpawnPending(s: State, j: nat, o: SpawnResult, s': State, i: nat)
    requires Inv(s) && SpawnStep(s, j, o, s') && i < |s'.apps| && s'.apps[i].pending
    ensures Schedules(s, Spawn(j, o), s', i) || StillPending(s, Spawn(j, o), s', i)
  {
    hide GoodOs, Linked, AllGood;
    if s.place.Boot? { assert IsInitial(s.apps[j]); }
  }

  lemma ReloadedNotPending(s: State, apps: seq<Scb>, s': State, i: nat)
    requires ReloadStep(s, apps, s') && i < |s'.apps|
    ensures !s'.apps[i].pending
  {
    assert IsInitial(s'.apps[i]);
  }

  lemma InitNotPending(s: State, i: nat)
    requires Init(s) && i < |s.apps|
    ensures !s.apps[i].pending
  {
    assert IsInitial(s.apps[i]);
  }

  lemma MoveLeavesApps(s: State, s': State)
    requires MoveStep(s, s')
    ensures s'.apps == s.apps
  {
  }

  lemma ReapPending(s: State, pid: int, s': State, i: nat)
    requires Inv(s) && ReapStep(s, pid, s') && i < |s'.apps| && s'.apps[i].pending
    ensures Schedules(s, Reap(pid), s', i) || StillPending(s, Reap(pid), s', i)
  {
    if exists j :: 0 <= j < |s.apps| && s.apps[j].pid == pid {
      var j :| 0 <= j < |s.apps| && s.apps[j].pid == pid && s'.apps == s.apps[j := Reaped(s.apps[j], s.stop, s.now)];
      NotOwned(s, pid, j);
      assert GoodScb(s.apps[j]);
    }
  }

  lemma {:induction false} Clock(r: Run, m: nat, n: nat)
    requires IsRun(r) && m <= n < |r.states|
    ensures r.states[m].now <= r.states[n].now
    decreases n - m
  {
    hide Next;
    if m < n {
      Clock(r, m, n - 1);
      assert NextAt(r, n - 1);
      ClockStep(r.states[n - 1], r.labels[n - 1], r.states[n]);
    }
  }

  lemma ClockStep(s: State, l: Label, s': State)
    requires Next(s, l, s')
    ensures s.now <= s'.now
  {
  }

  /** Step m scheduled the restart that step n finds pending, and nothing forked the
      application in between. */
  ghost predicate CausedBy(r: Run, m: nat, n: nat, i: nat)
    requires IsRun(r)
  {
    && m < n < |r.states| && Schedules(r.states[m], r.labels[m], r.states[m + 1], i)
    && (forall k :: m < k < n ==> !Forks(r.labels[k], i) && !r.labels[k].Reload?)
    && i < |r.states[n].apps| && r.states[n].apps[i].restartAt == r.states[m].now + RESTART_DELAY
  }

  lemma {:induction false} PendingHasCause(r: Run, n: nat, i: nat) returns (m: nat)
    requires IsRun(r) && n < |r.states| && i < |r.states[n].apps| && r.states[n].apps[i].pending
    ensures CausedBy(r, m, n, i)
    decreases n
  {
    hide Next, Inv;
    m := 0;
    if n == 0 {
      InitNotPending(r.states[0], i);
      assert false;
    } else {
      Always(r, n - 1);
      assert NextAt(r, n - 1);
      PendingStep(r.states[n - 1], r.labels[n - 1], r.states[n], i);
      if Schedules(r.states[n - 1], r.labels[n - 1], r.states[n], i) {
        m := n - 1;
      } else {
        m := PendingHasCause(r, n - 1, i);
      }
    }
  }

  /** A process forked by the restart pass. */
  predicate Respawns(s: State, l: Label, i: nat) {
    Forks(l, i) && s.place.Restarting?
  }

  /** Every automatic respawn comes at least a second after the reap or failed attempt
      that scheduled it, the last one before it. */
  lemma RespawnIsDelayed(r: Run, n: nat, i: nat) returns (m: nat)
    requires IsRun(r) && n < |r.labels| && Respawns(r.states[n], r.labels[n], i)
    ensures CausedBy(r, m, n, i) && r.states[n].now >= r.states[m].now + RESTART_DELAY
  {
    Always(r, n);
    assert NextAt(r, n);
    m := PendingHasCause(r, n, i);
  }

  /** The startup loop is beyond application i. */
  predicate BootedPast(s: State, i: nat) {
    s.place.Boot? ==> s.place.i > i
  }

  lemma PastStep(s: State, l: Label, s': State, i: nat)
    requires Next(s, l, s') && !l.Reload? && (BootedPast(s, i) || Forks(l, i))
    ensures BootedPast(s', i)
  {
  }

  lemma {:induction false} PastAfterFork(r: Run, j: nat, n: nat, i: nat)
    requires IsRun(r) && j < n < |r.states| && Forks(r.labels[j], i)
    requires forall k :: j < k < n ==> !r.labels[k].Reload?
    ensures BootedPast(r.states[n], i)
    decreases n
  {
    hide Next;
    assert NextAt(r, n - 1);
    if n > j + 1 { PastAfterFork(r, j, n - 1, i); }
    PastStep(r.states[n - 1], r.labels[n - 1], r.states[n], i);
  }

  lemma SpawnPlace(s: State, l: Label, s': State, i: nat)
    requires Next(s, l, s') && Forks(l, i) && !l.Start?
    ensures s.place.Restarting? || s.place == Boot(i)
  {
  }

  /** Between two forks of the same application lie a reap or failed attempt and at least
      a second after it, unless the second fork obeys a START or a reload came between. */
  lemma ForksAreApart(r: Run, j: nat, n: nat, i: nat) returns (m: nat)
    requires IsRun(r) && j < n < |r.labels| && Forks(r.labels[j], i) && Forks(r.labels[n], i)
    requires !r.labels[n].Start? && forall k :: j < k < n ==> !r.labels[k].Reload?
    ensures j < m && CausedBy(r, m, n, i)
    ensures r.states[n].now >= r.states[m].now + RESTART_DELAY >= r.states[j].now + RESTART_DELAY
  {
    hide Next, Inv;
    PastAfterFork(r, j, n, i);
    assert NextAt(r, n);
    SpawnPlace(r.states[n], r.labels[n], r.states[n + 1], i);
    m := RespawnIsDelayed(r, n, i);
    Clock(r, j, m);
  }
}
