/** Roads to a send on the closed channel.  Each lemma takes a state one step nearer to it. */
module Panics {
  import opened Types
  import opened Daemon
  import opened Settled
  import Delivery
  import Shutdown

  /** Some continuation whose successful loads are all from `loads` panics. */
  ghost predicate CanPanic(s: State, loads: iset<seq<Probe>>) {
    exists later :: Runs(s, later) && LoadsFrom(later, loads) && After(s, later).panicked
  }

  lemma {:induction false} CanPanicStep(s: State, a: Action, loads: iset<seq<Probe>>)
    requires Enabled(s, a) && (a.LoadSucceeds? ==> a.cfg in loads) && CanPanic(Apply(s, a), loads)
    ensures CanPanic(s, loads)
  {
    var later :| Runs(Apply(s, a), later) && LoadsFrom(later, loads) && After(Apply(s, a), later).panicked;
    RunsCons(s, a, later);
    assert LoadsFrom([a] + later, loads);
  }

  lemma {:induction false} AlreadyPanicked(s: State, loads: iset<seq<Probe>>)
    requires s.panicked
    ensures CanPanic(s, loads)
  {
    assert Runs(s, []) && LoadsFrom([], loads) && After(s, []).panicked;
  }

  predicate LiveIn(s: State, i: nat) { WorkerIn(s, i) && s.sched.pool[i].Live() }

  /** The pipeline can go on. */
  ghost predicate Flows(s: State) {
    InOrder(s.ctl) && Delivery.PumpOk(s) && Delivery.LogsFit(s) && !s.panicked
  }

  lemma {:induction false} FlowsStep(s: State, a: Action)
    requires Flows(s) && Enabled(s, a) && (a.Offer? ==> !s.pipe.closed)
    ensures Flows(Apply(s, a))
  {
    OrderStep(s, a);
    Delivery.PumpStep(s, a);
    LengthsFrame(s, a);
  }

  lemma {:induction false} LengthsFrame(s: State, a: Action)
    requires Enabled(s, a) && Delivery.LogsFit(s) && (a.Offer? ==> !s.pipe.closed)
    ensures Delivery.LogsFit(Apply(s, a)) && !Apply(s, a).panicked
  {
  }

  // -------- A live worker and a pipeline about to close --------

  function StepsToSend(p: Phase): nat {
    match p
    case Probing => 1
    case Waiting => 2
    case Offering(rest) => if rest == [] then 3 else 0
    case Exited => 0
  }

  /** A live worker will send on the closed channel. */
  lemma {:induction false} WorkerPanics(s: State, i: nat, loads: iset<seq<Probe>>)
    requires s.pipe.closed && !s.panicked && LiveIn(s, i)
    ensures CanPanic(s, loads)
    decreases StepsToSend(s.sched.pool[i].phase)
  {
    var w := s.sched.pool[i];
    var a := match w.phase
      case Waiting => Tick(i)
      case Probing => Finish(i, [Result(w.name, 0)])
      case Offering(rest) => if rest == [] then Offered(i) else Offer(i)
      case Exited => Tick(i);
    if a.Offer? {
      AlreadyPanicked(Apply(s, a), loads);
    } else {
      WorkerPanics(Apply(s, a), i, loads);
    }
    CanPanicStep(s, a, loads);
  }

  /** After `cancel()` the pipeline may close before the worker gets to send. */
  lemma {:induction false} PumpCloses(s: State, i: nat, loads: iset<seq<Probe>>)
    requires Flows(s) && s.ctl.ctxDone && LiveIn(s, i)
    ensures CanPanic(s, loads)
    decreases Shutdown.DrainWork(s)
  {
    if s.pipe.pump.Done? {
      WorkerPanics(s, i, loads);
    } else {
      var a := Shutdown.NextPump(s);
      Shutdown.PumpCanMove(s);
      Shutdown.PumpWorks(s, a);
      PumpAlone(s, a);
      FlowsStep(s, a);
      PumpCloses(Apply(s, a), i, loads);
      CanPanicStep(s, a, loads);
    }
  }

  // -------- Main's final Stop returns --------

  /** The workers of a Stop exist, and are cancelled but for those left to cancel. */
  ghost predicate Holds(c: Call, pool: seq<Worker>) {
    match c
    case Cancelling(snap, left) =>
      left <= snap && forall i :: i in snap ==> i < |pool| && (pool[i].cancelled || i in left)
    case Awaiting(snap, left) =>
      left <= snap && forall i :: i in snap ==> i < |pool| && pool[i].cancelled
    case _ => true
  }

  /** Main is inside or past its final Stop, and worker `i` has escaped it. */
  ghost predicate Escaped(s: State, i: nat) {
    && Flows(s) && LiveIn(s, i)
    && PastSnapshot(s.ctl) && Holds(s.ctl.mainCall, s.sched.pool) && i !in s.ctl.mainCall.Snap()
  }

  lemma {:induction false} MainCancels(s: State, i: nat, loads: iset<seq<Probe>>)
    requires Escaped(s, i) && s.ctl.mainCall.Cancelling?
    ensures CanPanic(s, loads)
    decreases |s.ctl.mainCall.left|
  {
    var left := s.ctl.mainCall.left;
    if left == {} {
      FlowsStep(s, AllCancelled(Main));
      MainAwaits(Apply(s, AllCancelled(Main)), i, loads);
      CanPanicStep(s, AllCancelled(Main), loads);
    } else {
      var k :| k in left;
      FlowsStep(s, CancelOne(Main, k));
      MainCancels(Apply(s, CancelOne(Main, k)), i, loads);
      CanPanicStep(s, CancelOne(Main, k), loads);
    }
  }

  lemma {:induction false} MainAwaits(s: State, i: nat, loads: iset<seq<Probe>>)
    requires Escaped(s, i) && s.ctl.mainCall.Awaiting?
    ensures CanPanic(s, loads)
    decreases |s.ctl.mainCall.left|, 1, 0
  {
    var left := s.ctl.mainCall.left;
    if left == {} {
      FlowsStep(s, StopReturns(Main));
      MainReturned(Apply(s, StopReturns(Main)), i, loads);
      CanPanicStep(s, StopReturns(Main), loads);
    } else {
      var k :| k in left;
      WorkerLeaves(s, i, k, loads);
    }
  }

  function StepsToLeave(p: Phase): nat {
    match p
    case Exited => 0
    case Waiting => 1
    case Offering(rest) => 2 + |rest|
    case Probing => 3
  }

  /** Worker `k`, cancelled, ends its run, hands over its results and exits; main goes on. */
  lemma {:induction false} WorkerLeaves(s: State, i: nat, k: nat, loads: iset<seq<Probe>>)
    requires Escaped(s, i) && s.ctl.mainCall.Awaiting? && k in s.ctl.mainCall.left
    ensures CanPanic(s, loads)
    decreases |s.ctl.mainCall.left|, 0, StepsToLeave(s.sched.pool[k].phase)
  {
    var w := s.sched.pool[k];
    var a := match w.phase
      case Exited => AwaitOne(Main, k)
      case Waiting => Quit(k)
      case Probing => Finish(k, [])
      case Offering(rest) => if rest == [] then Offered(k) else Offer(k);
    FlowsStep(s, a);
    if a.AwaitOne? {
      MainAwaits(Apply(s, a), i, loads);
    } else {
      WorkerMoves(s, a, k);
      WorkerLeaves(Apply(s, a), i, k, loads);
    }
    CanPanicStep(s, a, loads);
  }

  lemma {:induction false} WorkerMoves(s: State, a: Action, k: nat)
    requires Enabled(s, a) && !s.pipe.closed && WorkerIn(s, k)
    requires a == Quit(k) || a == Finish(k, []) || a == Offered(k) || a == Offer(k)
    ensures var s' := Apply(s, a);
            && s'.ctl == s.ctl && |s'.sched.pool| == |s.sched.pool|
            && s'.sched.pool == s.sched.pool[k := s'.sched.pool[k]]
            && s'.sched.pool[k].cancelled == s.sched.pool[k].cancelled
            && StepsToLeave(s'.sched.pool[k].phase) < StepsToLeave(s.sched.pool[k].phase)
  {
  }

  lemma {:induction false} MainReturned(s: State, i: nat, loads: iset<seq<Probe>>)
    requires Escaped(s, i) && s.ctl.mainCall.Returned?
    ensures CanPanic(s, loads)
  {
    FlowsStep(s, CancelContext);
    PumpCloses(Apply(s, CancelContext), i, loads);
    CanPanicStep(s, CancelContext, loads);
  }

  /** A live worker that main's final Stop does not know of makes the daemon panic. */
  lemma {:induction false} EscapedPanics(s: State, i: nat, loads: iset<seq<Probe>>)
    requires Escaped(s, i)
    ensures CanPanic(s, loads)
  {
    if s.ctl.ctxDone {
      PumpCloses(s, i, loads);
    } else if s.ctl.mainCall.Cancelling? {
      MainCancels(s, i, loads);
    } else if s.ctl.mainCall.Awaiting? {
      MainAwaits(s, i, loads);
    } else {
      MainReturned(s, i, loads);
    }
  }

  // -------- Main's snapshot misses a worker --------

  /** Main is about to take its snapshot, and can. */
  ghost predicate AboutToStop(s: State) {
    && Flows(s) && s.ctl.mainCall.AtSnapshot? && s.sched.lock.Free?
    && forall n :: n in s.sched.table ==> s.sched.table[n] < |s.sched.pool|
  }

  lemma {:induction false} SnapshotMisses(s: State, i: nat, loads: iset<seq<Probe>>)
    requires AboutToStop(s) && LiveIn(s, i) && i !in s.sched.table.Values
    ensures CanPanic(s, loads)
  {
    FlowsStep(s, Snapshot(Main));
    EscapedPanics(Apply(s, Snapshot(Main)), i, loads);
    CanPanicStep(s, Snapshot(Main), loads);
  }

  /** The reload takes the table before main does. */
  lemma {:induction false} ReloadTakes(s: State, i: nat, loads: iset<seq<Probe>>)
    requires AboutToStop(s) && LiveIn(s, i) && s.ctl.reloadCall.AtSnapshot?
    ensures CanPanic(s, loads)
  {
    var s' := Apply(s, Snapshot(Reloader));
    FlowsStep(s, Snapshot(Reloader));
    assert s'.sched.table.Values == {};
    SnapshotMisses(s', i, loads);
    CanPanicStep(s, Snapshot(Reloader), loads);
  }

  /** A new reload of `l`, any `l`, takes the table before main does. */
  lemma {:induction false} NewReloadTakes(s: State, i: nat, l: seq<Probe>, loads: iset<seq<Probe>>)
    requires AboutToStop(s) && LiveIn(s, i) && Accepted(l) && l in loads && !s.ctl.reload.Swapping?
    ensures CanPanic(s, loads)
  {
    var a := if s.ctl.reload.Quiet? then BeginReload else LoadSucceeds(l);
    var s' := Apply(s, a);
    FlowsStep(s, a);
    if a.BeginReload? {
      FlowsStep(s', LoadSucceeds(l));
      ReloadTakes(Apply(s', LoadSucceeds(l)), i, loads);
      CanPanicStep(s', LoadSucceeds(l), loads);
    } else {
      ReloadTakes(s', i, loads);
    }
    CanPanicStep(s, a, loads);
  }

  lemma {:induction false} PublishedThenTaken(s: State, i: nat, l: seq<Probe>, loads: iset<seq<Probe>>)
    requires AboutToStop(s) && LiveIn(s, i) && Accepted(l) && l in loads && s.ctl.reloadCall.Returned?
    ensures CanPanic(s, loads)
  {
    FlowsStep(s, Publish);
    NewReloadTakes(Apply(s, Publish), i, l, loads);
    CanPanicStep(s, Publish, loads);
  }

  /** Main waits for the lock while a reload launches; then another reload is faster. */
  lemma {:induction false} LaunchedThenTaken(s: State, i: nat, l: seq<Probe>, loads: iset<seq<Probe>>)
    requires Flows(s) && s.ctl.mainCall.AtSnapshot? && s.ctl.reloadCall.Launching?
    requires forall n :: n in s.sched.table ==> s.sched.table[n] < |s.sched.pool|
    requires Accepted(l) && l in loads
    requires forall p :: p in s.ctl.reloadCall.todo ==> FactoryBuilds(p.kind)
    requires LiveIn(s, i) || s.ctl.reloadCall.todo != []
    ensures CanPanic(s, loads)
    decreases |s.ctl.reloadCall.todo|
  {
    var todo := s.ctl.reloadCall.todo;
    if todo == [] {
      FlowsStep(s, Release(Reloader));
      PublishedThenTaken(Apply(s, Release(Reloader)), i, l, loads);
      CanPanicStep(s, Release(Reloader), loads);
    } else {
      assert todo[0] in todo;
      FlowsStep(s, LaunchOne(Reloader));
      LaunchedThenTaken(Apply(s, LaunchOne(Reloader)), |s.sched.pool|, l, loads);
      CanPanicStep(s, LaunchOne(Reloader), loads);
    }
  }

  // -------- A reload launches after main's snapshot --------

  /** Main will not take another snapshot, and the reload's Stop waits for nobody alive. */
  ghost predicate Unwatched(s: State) {
    && Flows(s) && PastSnapshot(s.ctl) && Holds(s.ctl.mainCall, s.sched.pool)
    && Holds(s.ctl.reloadCall, s.sched.pool) && DeadSnap(s.ctl.reloadCall, s.sched.pool)
  }

  /** There is a probe to launch: in the reload's configuration, or in a later one, `l`. */
  ghost predicate HasMore(s: State, cfg: seq<Probe>, l: seq<Probe>, loads: iset<seq<Probe>>) {
    (cfg != [] && Accepted(cfg)) || (cfg == [] && Later(s, l, loads))
  }

  ghost predicate Later(s: State, l: seq<Probe>, loads: iset<seq<Probe>>) {
    l != [] && Accepted(l) && l in loads && !s.ctl.stage.Down?
  }

  function Rounds(cfg: seq<Probe>): nat { if cfg == [] then 1 else 0 }

  lemma {:induction false} LaunchesNow(s: State, loads: iset<seq<Probe>>)
    requires Unwatched(s) && s.ctl.reloadCall.Launching?
    requires s.ctl.reloadCall.todo != [] && FactoryBuilds(s.ctl.reloadCall.todo[0].kind)
    ensures CanPanic(s, loads)
  {
    FlowsStep(s, LaunchOne(Reloader));
    EscapedPanics(Apply(s, LaunchOne(Reloader)), |s.sched.pool|, loads);
    CanPanicStep(s, LaunchOne(Reloader), loads);
  }

  lemma {:induction false} LocksLate(s: State, l: seq<Probe>, loads: iset<seq<Probe>>)
    requires Unwatched(s) && s.sched.lock.Free? && s.ctl.reloadCall.AtLock?
    requires s.sched.table == map[] && HasMore(s, s.ctl.reloadCall.todo, l, loads)
    ensures CanPanic(s, loads)
    decreases Rounds(s.ctl.reloadCall.todo), 3, 0
  {
    var s' := Apply(s, Acquire(Reloader));
    FlowsStep(s, Acquire(Reloader));
    if s.ctl.reloadCall.todo == [] {
      ReleasesLate(s', l, loads);
    } else {
      LaunchesNow(s', loads);
    }
    CanPanicStep(s, Acquire(Reloader), loads);
  }

  lemma {:induction false} AwaitsLate(s: State, l: seq<Probe>, loads: iset<seq<Probe>>)
    requires Unwatched(s) && s.sched.lock.Free? && s.ctl.reloadCall.Awaiting? && s.ctl.reload.Swapping?
    requires s.sched.table == map[] && HasMore(s, s.ctl.reload.cfg, l, loads)
    ensures CanPanic(s, loads)
    decreases Rounds(s.ctl.reload.cfg), 4, |s.ctl.reloadCall.left|
  {
    var left := s.ctl.reloadCall.left;
    if left == {} {
      FlowsStep(s, StopReturns(Reloader));
      LocksLate(Apply(s, StopReturns(Reloader)), l, loads);
      CanPanicStep(s, StopReturns(Reloader), loads);
    } else {
      var k :| k in left;
      FlowsStep(s, AwaitOne(Reloader, k));
      AwaitsLate(Apply(s, AwaitOne(Reloader, k)), l, loads);
      CanPanicStep(s, AwaitOne(Reloader, k), loads);
    }
  }

  lemma {:induction false} CancelsLate(s: State, l: seq<Probe>, loads: iset<seq<Probe>>)
    requires Unwatched(s) && s.sched.lock.Free? && s.ctl.reloadCall.Cancelling? && s.ctl.reload.Swapping?
    requires s.sched.table == map[] && HasMore(s, s.ctl.reload.cfg, l, loads)
    ensures CanPanic(s, loads)
    decreases Rounds(s.ctl.reload.cfg), 5, |s.ctl.reloadCall.left|
  {
    var left := s.ctl.reloadCall.left;
    if left == {} {
      FlowsStep(s, AllCancelled(Reloader));
      AwaitsLate(Apply(s, AllCancelled(Reloader)), l, loads);
      CanPanicStep(s, AllCancelled(Reloader), loads);
    } else {
      var k :| k in left;
      FlowsStep(s, CancelOne(Reloader, k));
      CancelsLate(Apply(s, CancelOne(Reloader, k)), l, loads);
      CanPanicStep(s, CancelOne(Reloader, k), loads);
    }
  }

  lemma {:induction false} SnapshotsLate(s: State, l: seq<Probe>, loads: iset<seq<Probe>>)
    requires Unwatched(s) && s.sched.lock.Free? && s.ctl.reloadCall.AtSnapshot? && s.ctl.reload.Swapping?
    requires s.sched.table == map[] && HasMore(s, s.ctl.reload.cfg, l, loads)
    ensures CanPanic(s, loads)
    decreases Rounds(s.ctl.reload.cfg), 6, 0
  {
    assert s.sched.table.Values == {};
    FlowsStep(s, Snapshot(Reloader));
    CancelsLate(Apply(s, Snapshot(Reloader)), l, loads);
    CanPanicStep(s, Snapshot(Reloader), loads);
  }

  lemma {:induction false} ReleasesLate(s: State, l: seq<Probe>, loads: iset<seq<Probe>>)
    requires Unwatched(s) && s.ctl.reloadCall == Launching([]) && s.sched.table == map[] && Later(s, l, loads)
    ensures CanPanic(s, loads)
    decreases 1, 2, 0
  {
    FlowsStep(s, Release(Reloader));
    PublishesLate(Apply(s, Release(Reloader)), l, loads);
    CanPanicStep(s, Release(Reloader), loads);
  }

  lemma {:induction false} PublishesLate(s: State, l: seq<Probe>, loads: iset<seq<Probe>>)
    requires Unwatched(s) && s.sched.lock.Free? && s.ctl.reloadCall.Returned?
    requires s.sched.table == map[] && Later(s, l, loads)
    ensures CanPanic(s, loads)
    decreases 1, 1, 0
  {
    FlowsStep(s, Publish);
    BeginsLate(Apply(s, Publish), l, loads);
    CanPanicStep(s, Publish, loads);
  }

  lemma {:induction false} BeginsLate(s: State, l: seq<Probe>, loads: iset<seq<Probe>>)
    requires Unwatched(s) && s.sched.lock.Free? && !s.ctl.reload.Swapping?
    requires s.sched.table == map[] && Later(s, l, loads)
    ensures CanPanic(s, loads)
    decreases 1, 0, 1
  {
    if s.ctl.reload.Quiet? {
      FlowsStep(s, BeginReload);
      LoadsLate(Apply(s, BeginReload), l, loads);
      CanPanicStep(s, BeginReload, loads);
    } else {
      LoadsLate(s, l, loads);
    }
  }

  lemma {:induction false} LoadsLate(s: State, l: seq<Probe>, loads: iset<seq<Probe>>)
    requires Unwatched(s) && s.sched.lock.Free? && s.ctl.reload.Loading?
    requires s.sched.table == map[] && Later(s, l, loads)
    ensures CanPanic(s, loads)
    decreases 1, 0, 0
  {
    FlowsStep(s, LoadSucceeds(l));
    SnapshotsLate(Apply(s, LoadSucceeds(l)), l, loads);
    CanPanicStep(s, LoadSucceeds(l), loads);
  }

  // -------- Main's Start overwrites a worker --------

  /** `i` is in the table only under its own name. */
  ghost predicate NamedInTable(sched: Sched) {
    forall n :: n in sched.table ==> sched.table[n] < |sched.pool| && sched.pool[sched.table[n]].name == n
  }

  lemma {:induction false} LaunchOrphans(sched: Sched, p: Probe, i: nat)
    requires NamedInTable(sched) && FactoryBuilds(p.kind)
    ensures NamedInTable(Launch(sched, p))
    ensures i < |sched.pool| && (i !in sched.table.Values || p.name == sched.pool[i].name) ==>
              i !in Launch(sched, p).table.Values
  {
    var sched' := Launch(sched, p);
    forall n | n in sched'.table
      ensures sched'.table[n] < |sched'.pool| && sched'.pool[sched'.table[n]].name == n
      ensures i < |sched.pool| && (i !in sched.table.Values || p.name == sched.pool[i].name) ==> sched'.table[n] != i
    {
      if n != p.name { assert n in sched.table && sched.table[n] in sched.table.Values; }
    }
  }
}
