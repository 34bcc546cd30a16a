/** Who answers for a worker goroutine.  As long as no launch overwrites a table
    entry, every live worker is either in the table, uncancelled, or in the
    snapshot of exactly one Stop that is still cancelling or waiting. */
module Ownership {
  import opened Types
  import opened Daemon

  /** The ids a Stop in progress has taken: those already cancelled and those left to
      cancel; then those left to wait for, the others having exited. */
  ghost predicate CallOk(c: Call, pool: seq<Worker>) {
    match c
    case Cancelling(snap, left) =>
      && left <= snap
      && (forall i :: i in snap ==> i < |pool| && (pool[i].cancelled <==> i !in left))
    case Awaiting(snap, left) =>
      && left <= snap
      && (forall i :: i in snap ==> i < |pool| && pool[i].cancelled)
      && (forall i :: i in snap && i !in left ==> !pool[i].Live())
    case _ => true
  }

  ghost predicate TableOk(sched: Sched) {
    && (forall n :: n in sched.table ==>
          sched.table[n] < |sched.pool| && sched.pool[sched.table[n]].name == n)
    && (forall n :: n in sched.table ==>
          sched.pool[sched.table[n]].Live() && !sched.pool[sched.table[n]].cancelled)
  }

  ghost predicate Tabled(sched: Sched, i: nat) {
    i < |sched.pool| && sched.pool[i].name in sched.table && sched.table[sched.pool[i].name] == i
  }

  /** Worker `i` is owned by the table, by main's Stop or by the reload handler's Stop. */
  ghost predicate Owned(sched: Sched, ctl: Control, i: nat) {
    Tabled(sched, i) || i in ctl.mainCall.Snap() || i in ctl.reloadCall.Snap()
  }

  ghost predicate OwnersDisjoint(sched: Sched, ctl: Control) {
    && ctl.mainCall.Snap() !! ctl.reloadCall.Snap()
    && (forall i :: Tabled(sched, i) ==> i !in ctl.mainCall.Snap() && i !in ctl.reloadCall.Snap())
  }

  ghost predicate AllOwned(sched: Sched, ctl: Control) {
    forall i :: 0 <= i < |sched.pool| && sched.pool[i].Live() ==> Owned(sched, ctl, i)
  }

  /** The lock is held exactly by the thread that is inside Start. */
  ghost predicate LockOk(sched: Sched, ctl: Control) {
    forall t :: sched.lock == Held(t) <==> ctl.Get(t).Launching?
  }

  ghost predicate OwnershipInv(sched: Sched, ctl: Control) {
    && TableOk(sched)
    && CallOk(ctl.mainCall, sched.pool)
    && CallOk(ctl.reloadCall, sched.pool)
    && OwnersDisjoint(sched, ctl)
    && AllOwned(sched, ctl)
    && LockOk(sched, ctl)
  }

  // -------- Preservation --------

  /** A worker that keeps its name and flag, and exits only once cancelled, keeps its owner. */
  lemma {:induction false} PhaseOwned(sched: Sched, ctl: Control, i: nat, w: Worker)
    requires OwnershipInv(sched, ctl) && i < |sched.pool|
    requires w.name == sched.pool[i].name && w.cancelled == sched.pool[i].cancelled
    requires sched.pool[i].Live() && (w.Live() || w.cancelled)
    ensures OwnershipInv(sched.(pool := sched.pool[i := w]), ctl)
  {
    var sched' := sched.(pool := sched.pool[i := w]);
    assert forall k :: Tabled(sched', k) <==> Tabled(sched, k);
  }

  lemma {:induction false} WorkerStepOwned(s: State, a: Action)
    requires Enabled(s, a) && OwnershipInv(s.sched, s.ctl)
    requires a.Tick? || a.Finish? || a.Offer? || a.Offered? || a.Quit?
    ensures OwnershipInv(Apply(s, a).sched, Apply(s, a).ctl)
  {
    var s' := Apply(s, a);
    if s' != s && !s'.panicked {
      PhaseOwned(s.sched, s.ctl, a.id, s'.sched.pool[a.id]);
    }
  }

  lemma {:induction false} SnapshotOwned(s: State, t: Thread)
    requires Enabled(s, Snapshot(t)) && OwnershipInv(s.sched, s.ctl)
    ensures OwnershipInv(Apply(s, Snapshot(t)).sched, Apply(s, Snapshot(t)).ctl)
  {
    forall i: nat ensures i in s.sched.table.Values <==> Tabled(s.sched, i) {
    }
  }

  lemma {:induction false} CancelOwned(s: State, a: Action)
    requires a.CancelOne? && Enabled(s, a) && OwnershipInv(s.sched, s.ctl)
    ensures OwnershipInv(Apply(s, a).sched, Apply(s, a).ctl)
  {
  }

  lemma {:induction false} CallStepOwned(s: State, a: Action)
    requires Enabled(s, a) && OwnershipInv(s.sched, s.ctl)
    requires a.AllCancelled? || a.AwaitOne? || a.StopReturns? || a.Acquire? || a.Release?
    ensures OwnershipInv(Apply(s, a).sched, Apply(s, a).ctl)
  {
  }

  lemma {:induction false} LaunchOwned(s: State, a: Action)
    requires a.LaunchOne? && Enabled(s, a) && !Overwrites(s, a) && OwnershipInv(s.sched, s.ctl)
    ensures OwnershipInv(Apply(s, a).sched, Apply(s, a).ctl)
  {
  }

  lemma {:induction false} OtherStepOwned(s: State, a: Action)
    requires Enabled(s, a) && OwnershipInv(s.sched, s.ctl) && InOrder(s.ctl)
    requires a.Signal? || a.CancelContext? || a.CloseExporter? || a.ShutServer?
             || a.BeginReload? || a.LoadFails? || a.LoadSucceeds? || a.Publish?
             || a.Take? || a.SeeCancel? || a.Export? || a.Dispatched? || a.CloseChannel? || a.SeeClosed?
    ensures OwnershipInv(Apply(s, a).sched, Apply(s, a).ctl)
  {
    OutsideFrame(s, a);
    OutsideOwned(s.sched, s.ctl, Apply(s, a).ctl);
  }

  predicate Outside(c: Call) { !c.Cancelling? && !c.Awaiting? && !c.Launching? }

  /** These steps leave the scheduler alone and change no call that is inside Stop or Start. */
  lemma {:induction false} OutsideFrame(s: State, a: Action)
    requires Enabled(s, a) && InOrder(s.ctl)
    requires a.Signal? || a.CancelContext? || a.CloseExporter? || a.ShutServer?
             || a.BeginReload? || a.LoadFails? || a.LoadSucceeds? || a.Publish?
             || a.Take? || a.SeeCancel? || a.Export? || a.Dispatched? || a.CloseChannel? || a.SeeClosed?
    ensures var ctl, ctl' := s.ctl, Apply(s, a).ctl;
            && Apply(s, a).sched == s.sched
            && (ctl'.mainCall == ctl.mainCall || (Outside(ctl.mainCall) && Outside(ctl'.mainCall)))
            && (ctl'.reloadCall == ctl.reloadCall || (Outside(ctl.reloadCall) && Outside(ctl'.reloadCall)))
  {
  }

  lemma {:induction false} OutsideOwned(sched: Sched, ctl: Control, ctl': Control)
    requires OwnershipInv(sched, ctl)
    requires ctl'.mainCall == ctl.mainCall || (Outside(ctl.mainCall) && Outside(ctl'.mainCall))
    requires ctl'.reloadCall == ctl.reloadCall || (Outside(ctl.reloadCall) && Outside(ctl'.reloadCall))
    ensures OwnershipInv(sched, ctl')
  {
    assert ctl'.mainCall.Snap() == ctl.mainCall.Snap() && ctl'.reloadCall.Snap() == ctl.reloadCall.Snap();
  }

  lemma {:induction false} OwnedStep(s: State, a: Action)
    requires Enabled(s, a) && !Overwrites(s, a) && OwnershipInv(s.sched, s.ctl) && InOrder(s.ctl)
    ensures OwnershipInv(Apply(s, a).sched, Apply(s, a).ctl)
  {
    if a.Tick? || a.Finish? || a.Offer? || a.Offered? || a.Quit? {
      WorkerStepOwned(s, a);
    } else if a.AllCancelled? || a.AwaitOne? || a.StopReturns? || a.Acquire? || a.Release? {
      CallStepOwned(s, a);
    } else if a.Snapshot? {
      SnapshotOwned(s, a.t);
    } else if a.CancelOne? {
      CancelOwned(s, a);
    } else if a.LaunchOne? {
      LaunchOwned(s, a);
    } else {
      OtherStepOwned(s, a);
    }
  }

  lemma {:induction false} OwnershipHolds(s: State, acts: seq<Action>)
    requires NoOverwriteRun(s, acts) && OwnershipInv(s.sched, s.ctl) && InOrder(s.ctl)
    ensures OwnershipInv(After(s, acts).sched, After(s, acts).ctl)
    decreases |acts|
  {
    if acts != [] {
      OwnedStep(s, acts[0]);
      OrderStep(s, acts[0]);
      OwnershipHolds(Apply(s, acts[0]), acts[1..]);
    }
  }

  // -------- Theorems --------

  /** Goroutine ownership: each live worker is in the table and uncancelled, or in the
      snapshot of one Stop that is not over, and never in two of these places. */
  lemma {:induction false} EveryLiveWorkerHasOneOwner(
      cfg: seq<Probe>, cap: nat, exporters: nat, acts: seq<Action>, i: nat)
    requires NoOverwriteRun(Boot(cfg, cap, exporters), acts)
    requires WorkerIn(After(Boot(cfg, cap, exporters), acts), i)
    requires After(Boot(cfg, cap, exporters), acts).sched.pool[i].Live()
    ensures var s := After(Boot(cfg, cap, exporters), acts);
            var inTable, byMain, byReload :=
              Tabled(s.sched, i), i in s.ctl.mainCall.Snap(), i in s.ctl.reloadCall.Snap();
            && (inTable || byMain || byReload)
            && !(inTable && byMain) && !(inTable && byReload) && !(byMain && byReload)
            && (inTable ==> !s.sched.pool[i].cancelled)
  {
    OwnershipHolds(Boot(cfg, cap, exporters), acts);
  }

  /** Ownership survives a launch exactly when the probe's name has no table entry. */
  lemma {:induction false} LaunchKeepsOwnershipIffNameFree(s: State, a: Action)
    requires a.LaunchOne? && Enabled(s, a) && OwnershipInv(s.sched, s.ctl)
    ensures OwnershipInv(Apply(s, a).sched, Apply(s, a).ctl) <==> !Overwrites(s, a)
  {
    if !Overwrites(s, a) {
      LaunchOwned(s, a);
    } else {
      var orphan := s.sched.table[s.ctl.Get(a.t).todo[0].name];
      assert Tabled(s.sched, orphan);
      assert !Owned(Apply(s, a).sched, Apply(s, a).ctl, orphan);
    }
  }

  predicate MovesWorker(a: Action, i: nat) {
    (a.Tick? || a.Finish? || a.Offer? || a.Offered? || a.Quit?) && a.id == i
  }

  lemma {:induction false} ExitedForever(s: State, acts: seq<Action>, i: nat)
    requires Runs(s, acts) && WorkerIn(s, i) && !s.sched.pool[i].Live()
    ensures WorkerIn(After(s, acts), i) && !After(s, acts).sched.pool[i].Live()
    ensures forall k :: 0 <= k < |acts| ==> !MovesWorker(acts[k], i)
    decreases |acts|
  {
    if acts != [] {
      ExitedForever(Apply(s, acts[0]), acts[1..], i);
    }
  }

  /** Once Stop returns, none of the workers it removed can take a step again. */
  lemma {:induction false} StopIsFinal(
      cfg: seq<Probe>, cap: nat, exporters: nat, acts: seq<Action>, t: Thread, later: seq<Action>, i: nat)
    requires NoOverwriteRun(Boot(cfg, cap, exporters), acts)
    requires Enabled(After(Boot(cfg, cap, exporters), acts), StopReturns(t))
    requires i in After(Boot(cfg, cap, exporters), acts).ctl.Get(t).snap
    requires Runs(After(Boot(cfg, cap, exporters), acts), later)
    ensures WorkerIn(After(Boot(cfg, cap, exporters), acts), i)
    ensures var s := After(Boot(cfg, cap, exporters), acts);
            !s.sched.pool[i].Live() && !Tabled(s.sched, i)
    ensures forall k :: 0 <= k < |later| ==> !MovesWorker(later[k], i)
  {
    OwnershipHolds(Boot(cfg, cap, exporters), acts);
    ExitedForever(After(Boot(cfg, cap, exporters), acts), later, i);
  }

  // -------- Counting --------

  function LiveIds(pool: seq<Worker>): set<nat> { set i: nat | i < |pool| && pool[i].Live() }

  /** The live workers that an unfinished Stop has taken. */
  function HeldLive(sched: Sched, ctl: Control): set<nat> {
    set i: nat | i in LiveIds(sched.pool) && (i in ctl.mainCall.Snap() || i in ctl.reloadCall.Snap())
  }

  lemma {:induction false} EntriesAreDistinct(table: map<string, nat>)
    requires forall m, n :: m in table && n in table && m != n ==> table[m] != table[n]
    ensures |table.Values| == |table.Keys|
    decreases |table|
  {
    if table != map[] {
      var n :| n in table;
      var rest := table - {n};
      assert rest.Keys == table.Keys - {n};
      forall v | v in table.Values && v != table[n] ensures v in rest.Values {
        var m :| m in table && table[m] == v;
        assert m in rest && rest[m] == v;
      }
      assert rest.Values == table.Values - {table[n]};
      EntriesAreDistinct(rest);
    }
  }

  /** The table has an entry for every live worker but those that an unfinished Stop holds:
      its size is the number of running goroutines exactly if no Stop holds a live one. */
  lemma {:induction false} TableCountsLiveWorkers(sched: Sched, ctl: Control)
    requires OwnershipInv(sched, ctl)
    ensures |sched.table.Keys| + |HeldLive(sched, ctl)| == |LiveIds(sched.pool)|
    ensures |sched.table.Keys| == |LiveIds(sched.pool)| <==> HeldLive(sched, ctl) == {}
  {
    EntriesAreDistinct(sched.table);
    LiveAreTabledOrHeld(sched, ctl);
  }

  lemma {:induction false} LiveAreTabledOrHeld(sched: Sched, ctl: Control)
    requires TableOk(sched) && OwnersDisjoint(sched, ctl) && AllOwned(sched, ctl)
    ensures sched.table.Values !! HeldLive(sched, ctl)
    ensures LiveIds(sched.pool) == sched.table.Values + HeldLive(sched, ctl)
  {
    forall i: nat ensures i in sched.table.Values <==> Tabled(sched, i) {
    }
  }
}
