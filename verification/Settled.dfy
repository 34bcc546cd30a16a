/** When a run is past all danger.  Nobody is left with workers that main's final Stop will
    not see, no launch can overwrite a worker, and what may still be loaded is empty. */
module Settled {
  import opened Types
  import opened Daemon
  import Delivery
  import Ownership

  /** Every successful load among `acts` is one of `loads`. */
  ghost predicate LoadsFrom(acts: seq<Action>, loads: iset<seq<Probe>>) {
    forall a :: a in acts && a.LoadSucceeds? ==> a.cfg in loads
  }

  /** Main's final Stop has taken its snapshot. */
  predicate PastSnapshot(ctl: Control) { ctl.ctxDone || (ctl.stage.Stopping? && !ctl.mainCall.AtSnapshot?) }

  predicate NothingToLaunch(c: Call) { c.AtLock? || c.Launching? ==> c.todo == [] }

  /** The table is empty, and nobody is about to fill it. */
  ghost predicate Finished(s: State) {
    && s.sched.table == map[]
    && NothingToLaunch(s.ctl.mainCall) && NothingToLaunch(s.ctl.reloadCall)
    && (s.ctl.reload.Swapping? && BeforeLock(s.ctl.reloadCall) ==> s.ctl.reload.cfg == [])
  }

  /** The names still to be launched are distinct and not in the table. */
  ghost predicate Fresh(todo: seq<Probe>, table: map<string, nat>) {
    && (forall i, j :: 0 <= i < j < |todo| ==> todo[i].name != todo[j].name)
    && (forall i :: 0 <= i < |todo| ==> todo[i].name !in table)
  }

  ghost predicate DeadSnap(c: Call, pool: seq<Worker>) {
    forall i :: i in c.Snap() && i < |pool| ==> !pool[i].Live()
  }

  predicate Starting(c: Call) { c.AtLock? || c.Launching? }

  /** A reload that is before its lock takes nothing and will launch nothing; launches to
      come collide neither with the table nor with each other; after main's snapshot there
      are none. */
  ghost predicate Planned(s: State) {
    var main, reload := s.ctl.mainCall, s.ctl.reloadCall;
    && (reload.AtSnapshot? ==> Finished(s))
    && (s.ctl.reload.Swapping? && BeforeLock(reload) ==>
          s.ctl.reload.cfg == [] && DeadSnap(reload, s.sched.pool) && NothingToLaunch(reload))
    && (Starting(main) ==> Fresh(main.todo, s.sched.table))
    && (Starting(reload) ==> Fresh(reload.todo, s.sched.table))
    && (Starting(main) && Starting(reload) ==> Names(main.todo) !! Names(reload.todo))
    && (PastSnapshot(s.ctl) ==> Finished(s))
  }

  ghost predicate SettledInv(s: State) {
    Delivery.DeliveryInv(s) && Ownership.OwnershipInv(s.sched, s.ctl) && Planned(s) && !s.panicked
  }

  // -------- Preservation --------

  ghost predicate Harmless(s: State, a: Action) { a.LoadSucceeds? ==> a.cfg == [] && Finished(s) }

  lemma {:induction false} FinishedStep(s: State, a: Action)
    requires Enabled(s, a) && InOrder(s.ctl) && Finished(s) && Harmless(s, a)
    ensures Finished(Apply(s, a))
  {
    if ByPump(a) { PumpAlone(s, a); }
  }

  lemma {:induction false} LaunchPlanned(s: State, a: Action)
    requires a.LaunchOne? && Enabled(s, a) && InOrder(s.ctl) && Planned(s)
    requires Ownership.LockOk(s.sched, s.ctl) && Ownership.CallOk(s.ctl.reloadCall, s.sched.pool)
    ensures Planned(Apply(s, a)) && !Overwrites(s, a)
  {
    var other := if a.t.Main? then s.ctl.reloadCall else s.ctl.mainCall;
    LaunchFresh(s.sched, s.ctl.Get(a.t).todo, if Starting(other) then other.todo else []);
  }

  lemma {:induction false} LaunchFresh(sched: Sched, todo: seq<Probe>, other: seq<Probe>)
    requires todo != [] && Fresh(todo, sched.table)
    requires Fresh(other, sched.table) && Names(todo) !! Names(other)
    ensures Fresh(todo[1..], Launch(sched, todo[0]).table)
    ensures Fresh(other, Launch(sched, todo[0]).table) && Names(todo[1..]) !! Names(other)
  {
    assert todo[0].name in Names(todo) && Names(todo[1..]) <= Names(todo);
    assert forall i :: 0 <= i < |other| ==> other[i].name in Names(other);
  }

  /** The steps inside Stop and Start other than a launch. */
  predicate ByCaller(a: Action) {
    a.Snapshot? || a.CancelOne? || a.AllCancelled? || a.AwaitOne? || a.StopReturns? || a.Acquire? || a.Release?
  }

  lemma {:induction false} CallPlanned(s: State, a: Action)
    requires ByCaller(a)
    requires Enabled(s, a) && InOrder(s.ctl) && Ownership.LockOk(s.sched, s.ctl) && Planned(s)
    ensures Planned(Apply(s, a))
  {
    if a.Snapshot? { assert !s.ctl.Get(Main).Launching? && !s.ctl.Get(Reloader).Launching?; }
    if Finished(s) { FinishedStep(s, a); }
  }

  lemma {:induction false} OtherPlanned(s: State, a: Action)
    requires !a.LaunchOne? && !ByCaller(a)
    requires Enabled(s, a) && InOrder(s.ctl) && Planned(s) && Harmless(s, a)
    ensures Planned(Apply(s, a))
  {
    if Finished(s) { FinishedStep(s, a); }
  }

  /** From the end of main's final Stop on nothing is left that could send. */
  lemma {:induction false} NobodyLeft(s: State)
    requires SettledInv(s) && s.ctl.ctxDone
    ensures forall i :: 0 <= i < |s.sched.pool| ==> !s.sched.pool[i].Live()
  {
    assert s.ctl.mainCall.Snap() == {};
    forall i | 0 <= i < |s.sched.pool| ensures !s.sched.pool[i].Live() {
      assert s.sched.pool[i].Live() ==> Ownership.Owned(s.sched, s.ctl, i);
    }
  }

  lemma {:induction false} SettledStep(s: State, a: Action)
    requires SettledInv(s) && Enabled(s, a) && Harmless(s, a)
    ensures SettledInv(Apply(s, a))
  {
    if a.LaunchOne? {
      LaunchPlanned(s, a);
    } else if ByCaller(a) {
      CallPlanned(s, a);
    } else {
      OtherPlanned(s, a);
    }
    Ownership.OwnedStep(s, a);
    Delivery.DeliveryStep(s, a);
    if s.pipe.closed { NobodyLeft(s); }
  }

  /** Nothing panics any more, if what is still loaded is empty, and that only once finished. */
  lemma {:induction false} SettledThroughout(s: State, later: seq<Action>, loads: iset<seq<Probe>>)
    requires SettledInv(s) && Runs(s, later) && LoadsFrom(later, loads)
    requires forall l :: l in loads ==> l == [] && Finished(s)
    ensures SettledInv(After(s, later))
    decreases |later|
  {
    if later != [] {
      var a := later[0];
      assert a in later;
      SettledStep(s, a);
      if Finished(s) { FinishedStep(s, a); }
      SettledThroughout(Apply(s, a), later[1..], loads);
    }
  }
}
