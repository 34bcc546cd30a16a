/** Exactly when a reload that overlaps start-up or shutdown makes a worker send on the
    closed channel.  The HTTP server is up before main's Start and until after the channel
    is closed, and nothing in the code keeps a reload out of those windows. */
module Hazards {
  import opened Types
  import opened Daemon
  import opened Settled
  import opened Panics
  import Delivery
  import Ownership
  import Shutdown

  // -------- A signal at any moment --------

  ghost predicate AnyLive(s: State) { exists i :: LiveIn(s, i) }

  ghost predicate AnyProbe(loads: iset<seq<Probe>>) { exists l :: l in loads && l != [] }

  /** What a signal in `s` runs into.  If a reload is before its Start's lock: a live worker
      for it to take from main, or a probe for it to launch behind main's back.  Otherwise: a
      reload that may still come, and a live worker for that to take; or one with a probe. */
  ghost predicate Exposed(s: State, loads: iset<seq<Probe>>) {
    if BeforeLock(s.ctl.reloadCall) then
      AnyLive(s) || (s.ctl.reload.Swapping? && s.ctl.reload.cfg != []) || AnyProbe(loads)
    else
      AnyProbe(loads) || (loads != iset{} && (AnyLive(s) || !NothingToLaunch(s.ctl.reloadCall)))
  }

  lemma {:induction false} ProgressFresh(cfg: seq<Probe>, todo: seq<Probe>, table: map<string, nat>)
    requires Accepted(cfg) && Shutdown.Progress(cfg, todo, table)
    ensures Fresh(todo, table)
    ensures forall p :: p in todo ==> FactoryBuilds(p.kind)
  {
    var k := |cfg| - |todo|;
    forall i | 0 <= i < |todo| ensures todo[i] == cfg[k + i] && todo[i].name !in table {
      assert forall j :: 0 <= j < k ==> cfg[..k][j] == cfg[j];
    }
  }

  lemma {:induction false} NobodyInTable(s: State)
    requires Ownership.TableOk(s.sched) && !AnyLive(s)
    ensures s.sched.table == map[]
  {
    assert forall n :: n in s.sched.table ==> LiveIn(s, s.sched.table[n]);
  }

  lemma {:induction false} NobodyInSnap(s: State, c: Call)
    requires !AnyLive(s)
    ensures DeadSnap(c, s.sched.pool)
  {
    forall i | i in c.Snap() && i < |s.sched.pool| ensures !s.sched.pool[i].Live() {
      assert !LiveIn(s, i);
    }
  }

  lemma {:induction false} ServingSettled(s: State, loads: iset<seq<Probe>>)
    requires Shutdown.SafeInv(s) && s.ctl.stage.Serving? && !Exposed(s, loads)
    ensures SettledInv(s)
    ensures forall l :: l in loads ==> l == [] && Finished(s)
  {
    if !AnyLive(s) { NobodyInTable(s); }
    if s.ctl.reloadCall.Launching? {
      ProgressFresh(s.ctl.reload.cfg, s.ctl.reloadCall.todo, s.sched.table);
    }
    if BeforeLock(s.ctl.reloadCall) { NobodyInSnap(s, s.ctl.reloadCall); }
  }

  /** Main takes its snapshot while a reload is on its way to launch, or another may come. */
  lemma {:induction false} LaunchBehindMain(s: State, l: seq<Probe>, loads: iset<seq<Probe>>)
    requires AboutToStop(s)
    requires Holds(s.ctl.reloadCall, s.sched.pool) && DeadSnap(s.ctl.reloadCall, s.sched.pool)
    requires BeforeLock(s.ctl.reloadCall) ==>
               s.ctl.reload.Swapping? && HasMore(s, s.ctl.reload.cfg, l, loads) &&
               (s.ctl.reloadCall.AtLock? ==> s.ctl.reloadCall.todo == s.ctl.reload.cfg)
    requires !BeforeLock(s.ctl.reloadCall) ==> !s.ctl.reloadCall.Launching? && Later(s, l, loads)
    ensures CanPanic(s, loads)
  {
    var s' := Apply(s, Snapshot(Main));
    FlowsStep(s, Snapshot(Main));
    assert Unwatched(s');
    if s.ctl.reloadCall.AtSnapshot? {
      SnapshotsLate(s', l, loads);
    } else if s.ctl.reloadCall.Cancelling? {
      CancelsLate(s', l, loads);
    } else if s.ctl.reloadCall.Awaiting? {
      AwaitsLate(s', l, loads);
    } else if s.ctl.reloadCall.AtLock? {
      LocksLate(s', l, loads);
    } else if s.ctl.reloadCall.Returned? {
      PublishesLate(s', l, loads);
    } else {
      BeginsLate(s', l, loads);
    }
    CanPanicStep(s, Snapshot(Main), loads);
  }

  /** After the signal, with a reload before its lock. */
  lemma {:induction false} CaughtBeforeLock(s: State, loads: iset<seq<Probe>>)
    requires Shutdown.SafeInv(s) && s.ctl.stage.Serving? && BeforeLock(s.ctl.reloadCall) && Exposed(s, loads)
    requires forall l :: l in loads ==> Accepted(l)
    ensures CanPanic(Apply(s, Signal), loads)
  {
    var s' := Apply(s, Signal);
    FlowsStep(s, Signal);
    assert s.sched.lock.Free? by { assert !s.ctl.Get(Main).Launching? && !s.ctl.Get(Reloader).Launching?; }
    if i :| LiveIn(s, i) {
      assert LiveIn(s', i);
      if s.ctl.reloadCall.AtSnapshot? {
        ReloadTakes(s', i, loads);
      } else {
        SnapshotMisses(s', i, loads);
      }
    } else {
      NobodyInSnap(s, s.ctl.reloadCall);
      var l: seq<Probe> := [];
      if AnyProbe(loads) { l :| l in loads && l != []; }
      LaunchBehindMain(s', l, loads);
    }
  }

  /** After the signal, with a reload that is past its lock or not yet past its load. */
  lemma {:induction false} CaughtByAnother(s: State, loads: iset<seq<Probe>>)
    requires Shutdown.SafeInv(s) && s.ctl.stage.Serving? && !BeforeLock(s.ctl.reloadCall) && Exposed(s, loads)
    requires forall l :: l in loads ==> Accepted(l)
    ensures CanPanic(Apply(s, Signal), loads)
  {
    var s' := Apply(s, Signal);
    FlowsStep(s, Signal);
    var l :| l in loads && (AnyProbe(loads) ==> l != []);
    assert !s.ctl.Get(Main).Launching?;
    if AnyLive(s) || !NothingToLaunch(s.ctl.reloadCall) {
      var i: nat := 0;
      if AnyLive(s) { i :| LiveIn(s, i); assert LiveIn(s', i); }
      TakenByAnother(s', i, l, loads);
    } else {
      if s.ctl.reloadCall.Launching? {
        FlowsStep(s', Release(Reloader));
        LaunchBehindMain(Apply(s', Release(Reloader)), l, loads);
        CanPanicStep(s', Release(Reloader), loads);
      } else {
        assert s.sched.lock.Free? by { assert !s.ctl.Get(Reloader).Launching?; }
        LaunchBehindMain(s', l, loads);
      }
    }
  }

  lemma {:induction false} TakenByAnother(s: State, i: nat, l: seq<Probe>, loads: iset<seq<Probe>>)
    requires Flows(s) && s.ctl.mainCall.AtSnapshot? && !BeforeLock(s.ctl.reloadCall) && Accepted(l) && l in loads
    requires Ownership.TableOk(s.sched) && Ownership.LockOk(s.sched, s.ctl) && Shutdown.Consistent(s)
    requires LiveIn(s, i) || !NothingToLaunch(s.ctl.reloadCall)
    ensures CanPanic(s, loads)
  {
    assert !s.ctl.Get(Main).Launching?;
    if s.ctl.reloadCall.Launching? {
      ProgressFresh(s.ctl.reload.cfg, s.ctl.reloadCall.todo, s.sched.table);
      LaunchedThenTaken(s, i, l, loads);
    } else {
      assert s.sched.lock.Free? by { assert !s.ctl.Get(Reloader).Launching?; }
      if s.ctl.reloadCall.Returned? {
        PublishedThenTaken(s, i, l, loads);
      } else {
        NewReloadTakes(s, i, l, loads);
      }
    }
  }

  /** A signal while main is serving, whatever a reload is doing at that moment and whatever
      reloads follow: some continuation panics if and only if the state is exposed to it. */
  lemma {:induction false} SignalPanicsIffExposed(
      cfg: seq<Probe>, cap: nat, exporters: nat, acts: seq<Action>, loads: iset<seq<Probe>>)
    requires Accepted(cfg) && GuardedRun(Boot(cfg, cap, exporters), acts)
    requires After(Boot(cfg, cap, exporters), acts).ctl.stage.Serving?
    requires forall l :: l in loads ==> Accepted(l)
    ensures var s := After(Boot(cfg, cap, exporters), acts);
            Enabled(s, Signal) && (CanPanic(Apply(s, Signal), loads) <==> Exposed(s, loads))
  {
    Shutdown.BootSafe(cfg, cap, exporters);
    Shutdown.SafeThroughout(Boot(cfg, cap, exporters), acts);
    SignalFromSafe(After(Boot(cfg, cap, exporters), acts), loads);
  }

  lemma {:induction false} SignalFromSafe(s: State, loads: iset<seq<Probe>>)
    requires Shutdown.SafeInv(s) && s.ctl.stage.Serving? && forall l :: l in loads ==> Accepted(l)
    ensures CanPanic(Apply(s, Signal), loads) <==> Exposed(s, loads)
  {
    if !Exposed(s, loads) {
      ServingSettled(s, loads);
      SettledStep(s, Signal);
      if Finished(s) { FinishedStep(s, Signal); }
      NoPanic(Apply(s, Signal), loads);
    } else if BeforeLock(s.ctl.reloadCall) {
      CaughtBeforeLock(s, loads);
    } else {
      CaughtByAnother(s, loads);
    }
  }

  lemma {:induction false} NoPanic(s: State, loads: iset<seq<Probe>>)
    requires SettledInv(s) && forall l :: l in loads ==> l == [] && Finished(s)
    ensures !CanPanic(s, loads)
  {
    forall later | Runs(s, later) && LoadsFrom(later, loads) ensures !After(s, later).panicked {
      SettledThroughout(s, later, loads);
    }
  }

  // -------- A reload after main's last snapshot --------

  /** From main's last snapshot until the server is shut down, before and after the channel
      is closed: some continuation panics if and only if a reload with a probe may come. */
  lemma {:induction false} LateReloadPanicsIffItHasAProbe(
      cfg: seq<Probe>, cap: nat, exporters: nat, acts: seq<Action>, loads: iset<seq<Probe>>)
    requires Accepted(cfg) && GuardedRun(Boot(cfg, cap, exporters), acts)
    requires PastSnapshot(After(Boot(cfg, cap, exporters), acts).ctl)
    requires !After(Boot(cfg, cap, exporters), acts).ctl.stage.Down?
    requires forall l :: l in loads ==> Accepted(l)
    ensures CanPanic(After(Boot(cfg, cap, exporters), acts), loads) <==> AnyProbe(loads)
  {
    Shutdown.BootSafe(cfg, cap, exporters);
    Shutdown.SafeThroughout(Boot(cfg, cap, exporters), acts);
    Shutdown.GuardedAtEnd(Boot(cfg, cap, exporters), acts);
    LateFromSafe(After(Boot(cfg, cap, exporters), acts), loads);
  }

  lemma {:induction false} LateFromSafe(s: State, loads: iset<seq<Probe>>)
    requires Shutdown.SafeInv(s) && Guarded(s) && PastSnapshot(s.ctl) && !s.ctl.stage.Down?
    requires forall l :: l in loads ==> Accepted(l)
    ensures CanPanic(s, loads) <==> AnyProbe(loads)
  {
    assert s.sched.lock.Free? by { assert !s.ctl.Get(Main).Launching? && !s.ctl.Get(Reloader).Launching?; }
    if AnyProbe(loads) {
      var l :| l in loads && l != [];
      assert Unwatched(s) && Later(s, l, loads);
      if s.ctl.reload.Swapping? {
        PublishesLate(s, l, loads);
      } else {
        BeginsLate(s, l, loads);
      }
    } else {
      NoPanic(s, loads);
    }
  }
}
