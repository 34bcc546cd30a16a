/** Reloads that overlap main's Start: exactly when a run can panic, from any state in which
    main has not yet begun to launch its probes, and so from the very beginning. */
module Startup {
  import opened Types
  import opened Daemon
  import opened Settled
  import opened Panics
  import opened Hazards
  import Delivery
  import Ownership
  import Shutdown

  // -------- Before main's Start --------

  /** Before main's Start has the lock.  The workers in the table are those of the last
      reload that was published, if one was. */
  ghost predicate EarlyInv(s: State, cfg: seq<Probe>, published: bool) {
    && Delivery.DeliveryInv(s) && Ownership.OwnershipInv(s.sched, s.ctl) && !s.panicked
    && s.ctl.mainCall == AtLock(cfg)
    && (published ==> Accepted(s.ctl.served))
    && Shutdown.TableFollows(s, if published then Names(s.ctl.served) else {})
  }

  /** The steps that take a reload, or main's Start, further with the table. */
  predicate Moves(a: Action) {
    a.LaunchOne? || a.Acquire? || a.Release? || a.Snapshot? || a.StopReturns? || a.LoadSucceeds? || a.Publish?
  }

  lemma {:induction false} EarlyCalls(s: State, a: Action, base: set<string>)
    requires Enabled(s, a) && InOrder(s.ctl) && s.ctl.mainCall.AtLock? && Apply(s, a).ctl.mainCall.AtLock?
    requires Moves(a)
    requires Shutdown.TableFollows(s, base)
    ensures !Overwrites(s, a)
    ensures var s' := Apply(s, a);
            if a.Publish? then Accepted(s'.ctl.served) && Shutdown.TableFollows(s', Names(s'.ctl.served))
            else s'.ctl.served == s.ctl.served && Shutdown.TableFollows(s', base)
  {
    if a.LaunchOne? {
      Shutdown.LaunchProgress(s.ctl.reload.cfg, s.ctl.reloadCall.todo, s.sched);
    } else if a.Acquire? {
      assert Names([]) == {};
      assert s.ctl.reload.cfg[..0] == [];
    } else if a.Release? {
      assert s.ctl.reload.cfg[..|s.ctl.reload.cfg|] == s.ctl.reload.cfg;
    }
  }

  predicate Stopping(c: Call) { c.Cancelling? || c.Awaiting? }

  /** The other steps leave the table and the configurations; a reload in its Stop stays there. */
  lemma {:induction false} StillFrame(s: State, a: Action)
    requires Enabled(s, a) && InOrder(s.ctl) && !Moves(a)
    ensures Apply(s, a).sched.table == s.sched.table && Apply(s, a).ctl.served == s.ctl.served
    ensures var ctl, ctl' := s.ctl, Apply(s, a).ctl;
            && (ctl'.reload == ctl.reload || (!ctl'.reload.Swapping? && !ctl.reload.Swapping?))
            && (ctl'.reloadCall == ctl.reloadCall || (Stopping(ctl.reloadCall) && Stopping(ctl'.reloadCall)))
  {
    if ByPump(a) { PumpAlone(s, a); }
  }

  lemma {:induction false} EarlyFrame(s: State, a: Action, base: set<string>)
    requires Enabled(s, a) && InOrder(s.ctl) && !Moves(a) && Shutdown.TableFollows(s, base)
    ensures Apply(s, a).ctl.served == s.ctl.served && Shutdown.TableFollows(Apply(s, a), base)
  {
    StillFrame(s, a);
    FollowsOn(s, Apply(s, a), base);
  }

  lemma {:induction false} FollowsOn(s: State, s': State, base: set<string>)
    requires Shutdown.TableFollows(s, base) && s'.sched.table == s.sched.table
    requires s'.ctl.reload == s.ctl.reload || (!s'.ctl.reload.Swapping? && !s.ctl.reload.Swapping?)
    requires s'.ctl.reloadCall == s.ctl.reloadCall || (Stopping(s.ctl.reloadCall) && Stopping(s'.ctl.reloadCall))
    ensures Shutdown.TableFollows(s', base)
  {
  }

  lemma {:induction false} EarlyStep(s: State, a: Action, cfg: seq<Probe>, published: bool)
    requires EarlyInv(s, cfg, published) && Enabled(s, a) && Apply(s, a).ctl.mainCall.AtLock?
    ensures EarlyInv(Apply(s, a), cfg, published || a.Publish?)
  {
    var base := if published then Names(s.ctl.served) else {};
    if Moves(a) {
      EarlyCalls(s, a, base);
    } else {
      EarlyFrame(s, a, base);
    }
    Ownership.OwnedStep(s, a);
    Delivery.DeliveryStep(s, a);
    MainStaysAtLock(s, a);
  }

  lemma {:induction false} MainStaysAtLock(s: State, a: Action)
    requires Enabled(s, a) && InOrder(s.ctl) && Apply(s, a).ctl.mainCall.AtLock?
    ensures s.ctl.mainCall == Apply(s, a).ctl.mainCall
    ensures !s.pipe.closed ==> !Apply(s, a).panicked
  {
  }

  lemma {:induction false} AtLockFromTheStart(s: State, acts: seq<Action>)
    requires Runs(s, acts) && InOrder(s.ctl) && After(s, acts).ctl.mainCall.AtLock?
    ensures s.ctl.mainCall.AtLock?
    decreases |acts|
  {
    if acts != [] {
      OrderStep(s, acts[0]);
      AtLockFromTheStart(Apply(s, acts[0]), acts[1..]);
      MainStaysAtLock(s, acts[0]);
    }
  }

  lemma {:induction false} EarlyThroughout(s: State, acts: seq<Action>, cfg: seq<Probe>, published: bool)
    requires EarlyInv(s, cfg, published) && Runs(s, acts) && After(s, acts).ctl.mainCall.AtLock?
    ensures EarlyInv(After(s, acts), cfg, published || Publish in acts)
    decreases |acts|
  {
    if acts != [] {
      var a := acts[0];
      OrderStep(s, a);
      AtLockFromTheStart(Apply(s, a), acts[1..]);
      EarlyStep(s, a, cfg, published);
      assert Publish in acts <==> a.Publish? || Publish in acts[1..] by { assert acts == [a] + acts[1..]; }
      EarlyThroughout(Apply(s, a), acts[1..], cfg, published || a.Publish?);
    }
  }

  lemma {:induction false} EarlyBoot(cfg: seq<Probe>, cap: nat, exporters: nat)
    ensures EarlyInv(Boot(cfg, cap, exporters), cfg, false)
  {
    Delivery.BootDelivers(cfg, cap, exporters);
  }

  // -------- Exactly when it can panic --------

  /** The names a reload has put into the table or is launching. */
  function Launched(s: State): set<string> {
    s.sched.table.Keys + if s.ctl.reloadCall.Launching? then Names(s.ctl.reloadCall.todo) else {}
  }

  /** What main's Start with `cfg` runs into.  Without further loads: a reload before its
      lock that has a probe to launch, holds a live worker, or may yet take one; or else a
      name that both configurations use.  With further loads: any probe at all. */
  ghost predicate EarlyExposed(s: State, cfg: seq<Probe>, loads: iset<seq<Probe>>) {
    || AnyProbe(loads)
    || (loads != iset{} && (cfg != [] || AnyLive(s) || !NothingToLaunch(s.ctl.reloadCall)))
    || if s.ctl.reload.Swapping? && BeforeLock(s.ctl.reloadCall) then
         s.ctl.reload.cfg != [] || AnyLive(s) || (s.ctl.reloadCall.AtSnapshot? && cfg != [])
       else
         !(Launched(s) !! Names(cfg))
  }

  lemma {:induction false} EarlySettled(s: State, cfg: seq<Probe>, published: bool, loads: iset<seq<Probe>>)
    requires EarlyInv(s, cfg, published) && Accepted(cfg) && !EarlyExposed(s, cfg, loads)
    ensures SettledInv(s)
    ensures forall l :: l in loads ==> l == [] && Finished(s)
  {
    if !AnyLive(s) {
      NobodyInTable(s);
      NobodyInSnap(s, s.ctl.reloadCall);
    }
    assert forall i :: 0 <= i < |cfg| ==> cfg[i].name in Names(cfg);
    if s.ctl.reloadCall.Launching? {
      ProgressFresh(s.ctl.reload.cfg, s.ctl.reloadCall.todo, s.sched.table);
    }
  }

  /** Main is launching.  By the time it takes its last snapshot, something escapes it:
      worker `i`, which is or will be in no table entry; or whatever is in the table, taken
      by the reload; or taken by another one; or what a reload launches. */
  ghost predicate Slips(s: State, i: nat, l: seq<Probe>, loads: iset<seq<Probe>>)
    requires s.ctl.mainCall.Launching?
  {
    var todo, reload := s.ctl.mainCall.todo, s.ctl.reloadCall;
    || (LiveIn(s, i) && (i !in s.sched.table.Values || s.sched.pool[i].name in Names(todo)))
    || (reload.AtSnapshot? && (LiveIn(s, i) || todo != []))
    || (!BeforeLock(reload) && Accepted(l) && l in loads && (LiveIn(s, i) || todo != []))
    || (if BeforeLock(reload) then
          && Holds(reload, s.sched.pool) && DeadSnap(reload, s.sched.pool)
          && s.ctl.reload.Swapping? && HasMore(s, s.ctl.reload.cfg, l, loads)
          && (reload.AtLock? ==> reload.todo == s.ctl.reload.cfg)
        else Later(s, l, loads))
  }

  ghost predicate MainLaunching(s: State) {
    && Flows(s) && s.ctl.mainCall.Launching? && !s.ctl.reloadCall.Launching? && NamedInTable(s.sched)
    && (forall p :: p in s.ctl.mainCall.todo ==> FactoryBuilds(p.kind))
  }

  lemma {:induction false} SlipsOn(s: State, i: nat, l: seq<Probe>, loads: iset<seq<Probe>>) returns (k: nat)
    requires MainLaunching(s) && s.ctl.mainCall.todo != [] && Slips(s, i, l, loads)
    ensures MainLaunching(Apply(s, LaunchOne(Main))) && Slips(Apply(s, LaunchOne(Main)), k, l, loads)
  {
    var todo, s' := s.ctl.mainCall.todo, Apply(s, LaunchOne(Main));
    assert todo[0] in todo && todo == [todo[0]] + todo[1..];
    FlowsStep(s, LaunchOne(Main));
    LaunchOrphans(s.sched, todo[0], i);
    k := if LiveIn(s, i) then i else |s.sched.pool|;
    assert LiveIn(s', k);
  }

  lemma {:induction false} StartSlips(s: State, i: nat, l: seq<Probe>, loads: iset<seq<Probe>>)
    requires MainLaunching(s) && Slips(s, i, l, loads)
    ensures CanPanic(s, loads)
    decreases |s.ctl.mainCall.todo|
  {
    if s.ctl.mainCall.todo == [] {
      var s' := Apply(s, Release(Main));
      FlowsStep(s, Release(Main));
      FlowsStep(s', Signal);
      SlippedAtSignal(Apply(s', Signal), i, l, loads);
      CanPanicStep(s', Signal, loads);
      CanPanicStep(s, Release(Main), loads);
    } else {
      var k := SlipsOn(s, i, l, loads);
      StartSlips(Apply(s, LaunchOne(Main)), k, l, loads);
      CanPanicStep(s, LaunchOne(Main), loads);
    }
  }

  lemma {:induction false} SlippedAtSignal(s: State, i: nat, l: seq<Probe>, loads: iset<seq<Probe>>)
    requires AboutToStop(s) && !s.ctl.reloadCall.Launching?
    requires var reload := s.ctl.reloadCall;
             || (LiveIn(s, i) && i !in s.sched.table.Values)
             || (reload.AtSnapshot? && LiveIn(s, i))
             || (!BeforeLock(reload) && Accepted(l) && l in loads && LiveIn(s, i))
             || (if BeforeLock(reload) then
                   && Holds(reload, s.sched.pool) && DeadSnap(reload, s.sched.pool)
                   && s.ctl.reload.Swapping? && HasMore(s, s.ctl.reload.cfg, l, loads)
                   && (reload.AtLock? ==> reload.todo == s.ctl.reload.cfg)
                 else Later(s, l, loads))
    ensures CanPanic(s, loads)
  {
    if LiveIn(s, i) && i !in s.sched.table.Values {
      SnapshotMisses(s, i, loads);
    } else if s.ctl.reloadCall.AtSnapshot? && LiveIn(s, i) {
      ReloadTakes(s, i, loads);
    } else if !BeforeLock(s.ctl.reloadCall) && LiveIn(s, i) && Accepted(l) && l in loads {
      if s.ctl.reloadCall.Returned? {
        PublishedThenTaken(s, i, l, loads);
      } else {
        NewReloadTakes(s, i, l, loads);
      }
    } else {
      LaunchBehindMain(s, l, loads);
    }
  }

  /** Main gets the lock first. */
  lemma {:induction false} MainFirst(s: State, cfg: seq<Probe>, published: bool, loads: iset<seq<Probe>>)
    requires EarlyInv(s, cfg, published) && Accepted(cfg) && EarlyExposed(s, cfg, loads)
    requires forall l :: l in loads ==> Accepted(l)
    requires !s.ctl.reloadCall.Launching? && !Idle(s, cfg)
    ensures CanPanic(s, loads)
  {
    var s' := Apply(s, Acquire(Main));
    assert s.sched.lock.Free? by { assert !s.ctl.Get(Main).Launching? && !s.ctl.Get(Reloader).Launching?; }
    FlowsStep(s, Acquire(Main));
    var i, l := Witness(s, cfg, published, loads);
    assert MainLaunching(s') && Slips(s', i, l, loads);
    StartSlips(s', i, l, loads);
    CanPanicStep(s, Acquire(Main), loads);
  }

  /** A reload that is before its lock, has nothing to launch, holds nobody alive, and will
      not find any worker of main's either. */
  ghost predicate Idle(s: State, cfg: seq<Probe>) {
    && s.ctl.reload.Swapping? && BeforeLock(s.ctl.reloadCall) && s.ctl.reload.cfg == [] && !AnyLive(s)
    && (s.ctl.reloadCall.AtSnapshot? ==> cfg == [])
  }

  lemma {:induction false} Witness(s: State, cfg: seq<Probe>, published: bool, loads: iset<seq<Probe>>)
    returns (i: nat, l: seq<Probe>)
    requires EarlyInv(s, cfg, published) && Accepted(cfg) && EarlyExposed(s, cfg, loads)
    requires forall l :: l in loads ==> Accepted(l)
    requires !s.ctl.reloadCall.Launching? && !Idle(s, cfg) && Enabled(s, Acquire(Main))
    ensures Slips(Apply(s, Acquire(Main)), i, l, loads)
  {
    var s' := Apply(s, Acquire(Main));
    i, l := 0, [];
    if loads != iset{} { l :| l in loads && (AnyProbe(loads) ==> l != []); }
    if AnyLive(s) {
      i :| LiveIn(s, i);
      assert LiveIn(s', i);
    } else {
      NobodyInTable(s);
      NobodyInSnap(s, s.ctl.reloadCall);
    }
    if !BeforeLock(s.ctl.reloadCall) && !(Launched(s) !! Names(cfg)) {
      var n :| n in s.sched.table && n in Names(cfg);
      i := s.sched.table[n];
      assert LiveIn(s', i) && s'.sched.pool[i].name == n;
    }
  }

  lemma {:induction false} ExposedPanics(s: State, cfg: seq<Probe>, published: bool, loads: iset<seq<Probe>>)
    requires EarlyInv(s, cfg, published) && Accepted(cfg) && EarlyExposed(s, cfg, loads)
    requires forall l :: l in loads ==> Accepted(l)
    ensures CanPanic(s, loads)
    decreases ReloadWork(s.ctl.reloadCall).0, ReloadWork(s.ctl.reloadCall).1
  {
    if s.ctl.reloadCall.Launching? || Idle(s, cfg) {
      var a := ReloadGoesOn(s, cfg, published, loads);
      EarlyStep(s, a, cfg, published);
      ExposedPanics(Apply(s, a), cfg, published, loads);
      CanPanicStep(s, a, loads);
    } else {
      MainFirst(s, cfg, published, loads);
    }
  }

  function ReloadWork(c: Call): (nat, nat) {
    match c
    case NoCall => (0, 0)
    case Returned => (0, 0)
    case Launching(todo) => (1, |todo|)
    case AtLock(_) => (2, 0)
    case Awaiting(_, left) => (3, |left|)
    case Cancelling(_, left) => (4, |left|)
    case AtSnapshot => (5, 0)
  }

  /** A reload that launches, or that has nothing to do, makes a step; what is to come stays. */
  lemma {:induction false} ReloadGoesOn(s: State, cfg: seq<Probe>, published: bool, loads: iset<seq<Probe>>)
    returns (a: Action)
    requires EarlyInv(s, cfg, published) && EarlyExposed(s, cfg, loads)
    requires s.ctl.reloadCall.Launching? || Idle(s, cfg)
    ensures Enabled(s, a) && !a.LoadSucceeds? && !a.Publish? && Apply(s, a).ctl.mainCall.AtLock?
    ensures EarlyExposed(Apply(s, a), cfg, loads)
    ensures var w, w' := ReloadWork(s.ctl.reloadCall), ReloadWork(Apply(s, a).ctl.reloadCall);
            w'.0 < w.0 || (w'.0 == w.0 && w'.1 < w.1)
  {
    var c := s.ctl.reloadCall;
    if c.Launching? && c.todo == [] {
      a := Release(Reloader);
      ReleaseGoesOn(s, cfg, loads);
    } else if c.Launching? {
      a := LaunchOne(Reloader);
      LaunchGoesOn(s, cfg, published, loads);
    } else {
      a := IdleGoesOn(s, cfg, published, loads);
    }
  }

  lemma {:induction false} LaunchGoesOn(s: State, cfg: seq<Probe>, published: bool, loads: iset<seq<Probe>>)
    requires EarlyInv(s, cfg, published) && EarlyExposed(s, cfg, loads)
    requires s.ctl.reloadCall.Launching? && s.ctl.reloadCall.todo != []
    ensures EarlyExposed(Apply(s, LaunchOne(Reloader)), cfg, loads)
  {
    var todo, s' := s.ctl.reloadCall.todo, Apply(s, LaunchOne(Reloader));
    ProgressFresh(s.ctl.reload.cfg, todo, s.sched.table);
    assert todo == [todo[0]] + todo[1..] && todo[0] in todo;
    assert Names(todo) == {todo[0].name} + Names(todo[1..]);
    assert LiveIn(s', |s.sched.pool|);
    assert Launched(s') == Launched(s);
  }

  lemma {:induction false} ReleaseGoesOn(s: State, cfg: seq<Probe>, loads: iset<seq<Probe>>)
    requires !s.panicked && EarlyExposed(s, cfg, loads) && s.ctl.reloadCall == Launching([])
    ensures EarlyExposed(Apply(s, Release(Reloader)), cfg, loads)
  {
    assert forall i :: LiveIn(s, i) ==> LiveIn(Apply(s, Release(Reloader)), i);
  }

  lemma {:induction false} IdleGoesOn(s: State, cfg: seq<Probe>, published: bool, loads: iset<seq<Probe>>)
    returns (a: Action)
    requires EarlyInv(s, cfg, published) && EarlyExposed(s, cfg, loads) && Idle(s, cfg)
    ensures Enabled(s, a) && !a.LoadSucceeds? && !a.Publish? && Apply(s, a).ctl.mainCall.AtLock?
    ensures EarlyExposed(Apply(s, a), cfg, loads)
    ensures var w, w' := ReloadWork(s.ctl.reloadCall), ReloadWork(Apply(s, a).ctl.reloadCall);
            w'.0 < w.0 || (w'.0 == w.0 && w'.1 < w.1)
  {
    NobodyInTable(s);
    var c := s.ctl.reloadCall;
    assert s.sched.lock.Free? by { assert !s.ctl.Get(Main).Launching? && !s.ctl.Get(Reloader).Launching?; }
    match c
    case AtSnapshot => a := Snapshot(Reloader);
    case Cancelling(_, left) =>
      if left == {} { a := AllCancelled(Reloader); } else { var k :| k in left; a := CancelOne(Reloader, k); }
    case Awaiting(_, left) =>
      if left == {} { a := StopReturns(Reloader); }
      else { var k :| k in left; assert !LiveIn(s, k); a := AwaitOne(Reloader, k); }
    case AtLock(_) => a := Acquire(Reloader);
    case _ =>
  }

  // -------- Theorems --------

  lemma {:induction false} EarlyExactly(s: State, cfg: seq<Probe>, published: bool, loads: iset<seq<Probe>>)
    requires EarlyInv(s, cfg, published) && Accepted(cfg) && forall l :: l in loads ==> Accepted(l)
    ensures CanPanic(s, loads) <==> EarlyExposed(s, cfg, loads)
  {
    if EarlyExposed(s, cfg, loads) {
      ExposedPanics(s, cfg, published, loads);
    } else {
      EarlySettled(s, cfg, published, loads);
      NoPanic(s, loads);
    }
  }

  /** In any run, as long as main's Start has not got the lock, and whatever a reload is
      doing: some continuation panics if and only if main's Start is exposed. */
  lemma {:induction false} StartPanicsIffExposed(
      cfg: seq<Probe>, cap: nat, exporters: nat, acts: seq<Action>, loads: iset<seq<Probe>>)
    requires Accepted(cfg) && Runs(Boot(cfg, cap, exporters), acts)
    requires After(Boot(cfg, cap, exporters), acts).ctl.mainCall.AtLock?
    requires forall l :: l in loads ==> Accepted(l)
    ensures var s := After(Boot(cfg, cap, exporters), acts);
            CanPanic(s, loads) <==> EarlyExposed(s, cfg, loads)
  {
    EarlyBoot(cfg, cap, exporters);
    EarlyThroughout(Boot(cfg, cap, exporters), acts, cfg, false);
    EarlyExactly(After(Boot(cfg, cap, exporters), acts), cfg, Publish in acts, loads);
  }

  /** The reload of `l` was the last to be over before main's Start begins, and no later load
      succeeds: some continuation panics if and only if `l` and main's own configuration
      share a probe name. */
  lemma {:induction false} EarlyReloadPanicsIffNameShared(
      cfg: seq<Probe>, l: seq<Probe>, cap: nat, exporters: nat, acts: seq<Action>)
    requires Accepted(cfg) && Runs(Boot(cfg, cap, exporters), acts) && Publish in acts
    requires After(Boot(cfg, cap, exporters), acts).ctl.mainCall.AtLock?
    requires After(Boot(cfg, cap, exporters), acts).ctl.reload.Quiet?
    requires After(Boot(cfg, cap, exporters), acts).ctl.served == l
    ensures CanPanic(After(Boot(cfg, cap, exporters), acts), iset{}) <==> !(Names(l) !! Names(cfg))
  {
    EarlyBoot(cfg, cap, exporters);
    EarlyThroughout(Boot(cfg, cap, exporters), acts, cfg, false);
    EarlyExactly(After(Boot(cfg, cap, exporters), acts), cfg, true, iset{});
  }

  /** The daemon as a whole, over all its runs: a worker can come to send on the closed
      channel if and only if a reload may succeed and some configuration has a probe. */
  lemma {:induction false} DaemonPanicsIffReloadable(
      cfg: seq<Probe>, cap: nat, exporters: nat, loads: iset<seq<Probe>>)
    requires Accepted(cfg) && forall l :: l in loads ==> Accepted(l)
    ensures CanPanic(Boot(cfg, cap, exporters), loads) <==> loads != iset{} && (cfg != [] || AnyProbe(loads))
  {
    EarlyBoot(cfg, cap, exporters);
    EarlyExactly(Boot(cfg, cap, exporters), cfg, false, loads);
  }
}
