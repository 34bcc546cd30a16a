/** Safety of whole guarded runs: no reload is past its load before main's Start has
    returned, nor between its load and its Start's lock once the final Stop has begun.
    Then the worker table follows the served configuration, and no worker ever sends on
    the closed channel.  Hazards says exactly what happens otherwise. */
module Shutdown {
  import opened Types
  import opened Daemon
  import Delivery
  import Ownership

  // -------- The table follows the configuration --------

  /** Start has launched all of `cfg` but its tail `todo`. */
  ghost predicate Progress(cfg: seq<Probe>, todo: seq<Probe>, table: map<string, nat>) {
    && |todo| <= |cfg|
    && todo == cfg[|cfg| - |todo|..]
    && table.Keys == Names(cfg[..|cfg| - |todo|])
  }

  /** Where a reload is in replacing workers named `base` by those of its configuration. */
  ghost predicate SwapConsistent(s: State, base: set<string>)
    requires s.ctl.reload.Swapping?
  {
    var cfg, table := s.ctl.reload.cfg, s.sched.table;
    && Accepted(cfg)
    && match s.ctl.reloadCall
       case NoCall => false
       case AtSnapshot => table.Keys == base
       case Cancelling(_, _) => table == map[]
       case Awaiting(_, _) => table == map[]
       case AtLock(todo) => todo == cfg && table == map[]
       case Launching(todo) => Progress(cfg, todo, table)
       case Returned => table.Keys == Names(cfg)
  }

  ghost predicate TableFollows(s: State, base: set<string>) {
    if s.ctl.reload.Swapping? then SwapConsistent(s, base) else s.sched.table.Keys == base
  }

  ghost predicate Consistent(s: State) {
    var table, served := s.sched.table, s.ctl.served;
    && Accepted(served)
    && (s.ctl.reload.Swapping? ==> Accepted(s.ctl.reload.cfg))
    && match s.ctl.stage
       case Booting =>
         if s.ctl.mainCall.Launching? then Progress(served, s.ctl.mainCall.todo, table)
         else s.ctl.mainCall == AtLock(served) && table == map[]
       case Serving => TableFollows(s, Names(served))
       case Stopping =>
         if s.ctl.mainCall.AtSnapshot? then TableFollows(s, Names(served))
         else table == map[] && !s.ctl.reloadCall.Launching?
       case _ => table == map[] && !s.ctl.reloadCall.Launching?
  }

  lemma {:induction false} LaunchProgress(cfg: seq<Probe>, todo: seq<Probe>, sched: Sched)
    requires Accepted(cfg) && Progress(cfg, todo, sched.table) && todo != []
    ensures FactoryBuilds(todo[0].kind) && todo[0].name !in sched.table
    ensures Progress(cfg, todo[1..], Launch(sched, todo[0]).table)
  {
    var k := |cfg| - |todo|;
    assert todo[0] == cfg[k];
    assert cfg[..k + 1] == cfg[..k] + [cfg[k]];
    assert Names(cfg[..k + 1]) == Names(cfg[..k]) + {cfg[k].name};
  }

  lemma {:induction false} ConsistentStep(s: State, a: Action)
    requires Enabled(s, a) && InOrder(s.ctl) && Ownership.LockOk(s.sched, s.ctl)
    requires Consistent(s) && Guarded(s) && Guarded(Apply(s, a))
    ensures Consistent(Apply(s, a)) && !Overwrites(s, a)
  {
    if a.LaunchOne? || a.Acquire? || a.Release? {
      StartConsistent(s, a);
    } else if a.Snapshot? || a.StopReturns? || a.LoadSucceeds? || a.Publish? || a.Signal? || a.CancelContext? {
      HandoverConsistent(s, a);
    } else {
      ConfigFrame(s, a);
    }
  }

  lemma {:induction false} StartConsistent(s: State, a: Action)
    requires Enabled(s, a) && (a.LaunchOne? || a.Acquire? || a.Release?)
    requires InOrder(s.ctl) && Consistent(s) && Guarded(s)
    ensures Consistent(Apply(s, a)) && !Overwrites(s, a)
  {
    var cfg := if a.t.Main? then s.ctl.served else s.ctl.reload.cfg;
    if a.LaunchOne? {
      LaunchProgress(cfg, s.ctl.Get(a.t).todo, s.sched);
    } else if a.Acquire? {
      assert Names([]) == {};
      assert cfg[..0] == [];
    } else {
      assert cfg[..|cfg|] == cfg;
    }
  }

  lemma {:induction false} HandoverConsistent(s: State, a: Action)
    requires Enabled(s, a)
    requires a.Snapshot? || a.StopReturns? || a.LoadSucceeds? || a.Publish? || a.Signal? || a.CancelContext?
    requires InOrder(s.ctl) && Ownership.LockOk(s.sched, s.ctl) && Consistent(s) && Guarded(s) && Guarded(Apply(s, a))
    ensures Consistent(Apply(s, a))
  {
    assert a.Snapshot? && s.ctl.Get(a.t).AtSnapshot? ==> !s.ctl.Get(Reloader).Launching?;
  }

  /** The other steps touch neither the table nor the configurations. */
  lemma {:induction false} ConfigFrame(s: State, a: Action)
    requires Enabled(s, a) && InOrder(s.ctl) && Consistent(s) && Guarded(s) && Guarded(Apply(s, a))
    requires !(a.LaunchOne? || a.Acquire? || a.Release? || a.Snapshot? || a.StopReturns?
               || a.LoadSucceeds? || a.Publish? || a.Signal? || a.CancelContext?)
    ensures Consistent(Apply(s, a))
  {
  }

  // -------- No send on a closed channel --------

  ghost predicate SafeInv(s: State) {
    && Delivery.DeliveryInv(s)
    && Ownership.OwnershipInv(s.sched, s.ctl)
    && Consistent(s)
    && !s.panicked
  }

  /** After the final Stop has returned nothing is left that could send. */
  lemma {:induction false} NobodyLeft(s: State)
    requires InOrder(s.ctl) && Ownership.OwnershipInv(s.sched, s.ctl) && Consistent(s) && Guarded(s)
    requires s.ctl.ctxDone || s.ctl.mainCall.Returned?
    ensures forall i :: 0 <= i < |s.sched.pool| ==> !s.sched.pool[i].Live()
  {
    assert s.ctl.mainCall.Snap() == {} && s.ctl.reloadCall.Snap() == {};
    forall i | 0 <= i < |s.sched.pool| ensures !s.sched.pool[i].Live() {
      assert !Ownership.Owned(s.sched, s.ctl, i);
    }
  }

  lemma {:induction false} SafeStep(s: State, a: Action)
    requires Enabled(s, a) && SafeInv(s) && Guarded(s) && Guarded(Apply(s, a))
    ensures SafeInv(Apply(s, a)) && !Overwrites(s, a)
  {
    ConsistentStep(s, a);
    Ownership.OwnedStep(s, a);
    Delivery.DeliveryStep(s, a);
    if s.pipe.closed { NobodyLeft(s); }
  }

  lemma {:induction false} SafeThroughout(s: State, acts: seq<Action>)
    requires GuardedRun(s, acts) && SafeInv(s)
    ensures SafeInv(After(s, acts)) && NoOverwriteRun(s, acts)
    decreases |acts|
  {
    if acts != [] {
      var a, rest := acts[0], acts[1..];
      var s' := Apply(s, a);
      SafeStep(s, a);
      SafeThroughout(s', rest);
      assert After(s, acts) == After(s', rest);
    }
  }

  lemma {:induction false} GuardedAtEnd(s: State, acts: seq<Action>)
    requires GuardedRun(s, acts)
    ensures Guarded(After(s, acts))
    decreases |acts|
  {
    if acts != [] { GuardedAtEnd(Apply(s, acts[0]), acts[1..]); }
  }

  lemma {:induction false} BootSafe(cfg: seq<Probe>, cap: nat, exporters: nat)
    requires Accepted(cfg)
    ensures SafeInv(Boot(cfg, cap, exporters))
  {
    Delivery.BootDelivers(cfg, cap, exporters);
  }

  // -------- Theorems --------

  /** Shutdown safety over whole runs: in every interleaving nobody sends on the closed
      channel, no launch overwrites a live worker, and from `cancel()` on no worker is
      left; once Run has closed the channel every produced result has gone to every
      exporter, in enqueue order, or has been recorded as dropped. */
  lemma {:induction false} ShutdownIsSafe(cfg: seq<Probe>, cap: nat, exporters: nat, acts: seq<Action>)
    requires Accepted(cfg) && GuardedRun(Boot(cfg, cap, exporters), acts)
    ensures NoOverwriteRun(Boot(cfg, cap, exporters), acts)
    ensures var s := After(Boot(cfg, cap, exporters), acts);
            && !s.panicked
            && (s.pipe.exporterClosed <==> s.ctl.stage.Ended? || s.ctl.stage.Down?)
            && (s.ctl.ctxDone ==> forall i :: 0 <= i < |s.sched.pool| ==> !s.sched.pool[i].Live())
            && (s.pipe.closed ==>
                  && s.pipe.buf == []
                  && multiset(s.pipe.produced) == multiset(s.pipe.sent) + multiset(s.pipe.lost)
                  && |s.pipe.logs| == exporters
                  && forall j :: 0 <= j < exporters ==> s.pipe.logs[j] == s.pipe.sent)
    ensures forall i, j :: 0 <= i < j < |acts| && acts[i].CloseExporter? ==> !acts[j].Export?
  {
    Delivery.ClosedMeansDrained(cfg, cap, exporters, acts);
    BootSafe(cfg, cap, exporters);
    SafeThroughout(Boot(cfg, cap, exporters), acts);
    Delivery.DeliveryHolds(Boot(cfg, cap, exporters), acts);
    GuardedAtEnd(Boot(cfg, cap, exporters), acts);
    var s := After(Boot(cfg, cap, exporters), acts);
    if s.ctl.ctxDone {
      NobodyLeft(s);
      Delivery.NothingUnoffered(s.sched.pool);
    }
  }

  /** Reload consistency: with no reload in progress the worker table has exactly the
      names of the configuration being served, each with a live worker of that name. */
  lemma {:induction false} TableMatchesServedConfig(cfg: seq<Probe>, cap: nat, exporters: nat, acts: seq<Action>)
    requires Accepted(cfg) && GuardedRun(Boot(cfg, cap, exporters), acts)
    requires After(Boot(cfg, cap, exporters), acts).ctl.stage.Serving?
    requires After(Boot(cfg, cap, exporters), acts).ctl.reload.Quiet?
    ensures var s := After(Boot(cfg, cap, exporters), acts);
            && s.sched.table.Keys == Names(s.ctl.served)
            && forall p :: p in s.ctl.served ==>
                 && p.name in s.sched.table
                 && WorkerIn(s, s.sched.table[p.name])
                 && s.sched.pool[s.sched.table[p.name]].name == p.name
                 && s.sched.pool[s.sched.table[p.name]].Live()
  {
    BootSafe(cfg, cap, exporters);
    SafeThroughout(Boot(cfg, cap, exporters), acts);
    var s := After(Boot(cfg, cap, exporters), acts);
    forall p | p in s.ctl.served ensures p.name in s.sched.table {
      assert p.name in Names(s.ctl.served);
    }
  }

  predicate MainCalls(a: Action) { (a.LaunchOne? || a.Snapshot?) && a.t.Main? }

  lemma {:induction false} LoadingFrame(s: State, a: Action)
    requires Enabled(s, a) && InOrder(s.ctl) && s.ctl.reload.Loading? && !a.LoadSucceeds?
    ensures Apply(s, a).ctl.served == s.ctl.served
    ensures Apply(s, a).sched.table == s.sched.table || (MainCalls(a) && !s.ctl.stage.Serving?)
    ensures a.LoadFails? || Apply(s, a).ctl.reload.Loading?
  {
  }

  ghost predicate ServingThroughout(s: State, acts: seq<Action>)
    requires Runs(s, acts)
    decreases |acts|
  {
    s.ctl.stage.Serving? && (acts == [] || ServingThroughout(Apply(s, acts[0]), acts[1..]))
  }

  /** In any run, guarded or not: from the request to the failed load the served
      configuration stays, and so does the table unless main itself starts or stops the
      probes meanwhile, which it cannot do while it is serving. */
  lemma {:induction false} FailedLoadChangesNothing(s: State, acts: seq<Action>)
    requires InOrder(s.ctl) && Runs(s, acts + [LoadFails]) && s.ctl.reload.Loading?
    requires forall a :: a in acts ==> !a.LoadSucceeds? && !a.LoadFails?
    ensures var s' := After(s, acts + [LoadFails]);
            && s'.ctl.served == s.ctl.served && s'.ctl.reload.Quiet?
            && ((forall a :: a in acts ==> !MainCalls(a)) ==> s'.sched.table == s.sched.table)
            && (ServingThroughout(s, acts + [LoadFails]) ==> s'.sched.table == s.sched.table)
    decreases |acts|
  {
    var all := acts + [LoadFails];
    LoadingFrame(s, all[0]);
    OrderStep(s, all[0]);
    if acts == [] {
      assert all[1..] == [];
      assert After(s, all) == Apply(s, LoadFails);
    } else {
      assert all[1..] == acts[1..] + [LoadFails];
      FailedLoadChangesNothing(Apply(s, acts[0]), acts[1..]);
      assert acts[0] in acts && forall a :: a in acts[1..] ==> a in acts;
    }
  }

  // -------- The drain ends --------

  /** An upper bound on the steps the pipeline can still take. */
  function DrainWork(s: State): nat {
    if s.pipe.pump.Done? then 0
    else
      Times(|s.pipe.buf|, s.exporters + 2) +
      match s.pipe.pump
      case Drain => 1
      case Receive => 2
      case Dispatch(_, k, drain) =>
        (if k < s.exporters then s.exporters - k else 0) + 1 + if drain then 1 else 2
  }

  function Times(n: nat, k: nat): nat { if n == 0 then 0 else Times(n - 1, k) + k }

  function PumpSteps(acts: seq<Action>): nat {
    if acts == [] then 0
    else PumpSteps(acts[1..]) + if ByPump(acts[0]) then 1 else 0
  }

  lemma {:induction false} PumpWorks(s: State, a: Action)
    requires Enabled(s, a) && ByPump(a)
    ensures DrainWork(Apply(s, a)) < DrainWork(s)
    ensures Apply(s, a).ctl == s.ctl
  {
  }

  lemma {:induction false} OthersWait(s: State, a: Action)
    requires Enabled(s, a) && !ByPump(a) && !a.Offer?
    ensures Apply(s, a).pipe.pump == s.pipe.pump && Apply(s, a).pipe.buf == s.pipe.buf
    ensures s.ctl.ctxDone ==> Apply(s, a).ctl.ctxDone
  {
  }

  /** The number of sends among `acts`. */
  function Offers(acts: seq<Action>): nat {
    if acts == [] then 0 else Offers(acts[1..]) + if acts[0].Offer? then 1 else 0
  }

  lemma {:induction false} DrainStep(s: State, a: Action)
    requires Enabled(s, a) && s.ctl.ctxDone
    ensures Apply(s, a).ctl.ctxDone && Apply(s, a).exporters == s.exporters
    ensures ByPump(a) ==> DrainWork(Apply(s, a)) < DrainWork(s)
    ensures !ByPump(a) ==> DrainWork(Apply(s, a)) <= DrainWork(s) + if a.Offer? then s.exporters + 2 else 0
  {
    if ByPump(a) {
      PumpWorks(s, a);
    } else if a.Offer? {
      SendWork(s, a.id);
    } else {
      OthersWait(s, a);
    }
  }

  lemma {:induction false} SendWork(s: State, i: nat)
    requires Enabled(s, Offer(i))
    ensures DrainWork(Send(s, i)) <= DrainWork(s) + s.exporters + 2
  {
  }

  /** In any run, from `cancel()` on: the pipeline takes a bounded number of steps, plus a
      bounded number for every send that is still made. */
  lemma {:induction false} DrainBound(s: State, acts: seq<Action>)
    requires Runs(s, acts) && s.ctl.ctxDone
    ensures PumpSteps(acts) + DrainWork(After(s, acts)) <= DrainWork(s) + Times(Offers(acts), s.exporters + 2)
    decreases |acts|
  {
    if acts != [] {
      DrainStep(s, acts[0]);
      DrainBound(Apply(s, acts[0]), acts[1..]);
    }
  }

  lemma {:induction false} NoOffers(s: State, acts: seq<Action>)
    requires SafeInv(s) && GuardedRun(s, acts) && s.ctl.ctxDone
    ensures Offers(acts) == 0
    decreases |acts|
  {
    if acts != [] {
      NobodyLeft(s);
      SafeStep(s, acts[0]);
      DrainStep(s, acts[0]);
      NoOffers(Apply(s, acts[0]), acts[1..]);
    }
  }

  /** On guarded runs nobody sends after `cancel()`, so the pipeline takes a bounded number
      of steps, all of them possible, until the channel is closed: `pipe.Wait()` returns. */
  lemma {:induction false} DrainEnds(s: State, acts: seq<Action>)
    requires SafeInv(s) && GuardedRun(s, acts) && s.ctl.ctxDone
    ensures PumpSteps(acts) + DrainWork(After(s, acts)) <= DrainWork(s)
    ensures !s.pipe.pump.Done? ==> exists a :: ByPump(a) && Enabled(s, a)
  {
    DrainBound(s, acts);
    NoOffers(s, acts);
    PumpCanMove(s);
  }

  /** The step the pipeline can take next. */
  function NextPump(s: State): Action {
    match s.pipe.pump
    case Receive => SeeCancel
    case Drain => if s.pipe.buf == [] then CloseChannel else Take
    case Dispatch(_, k, _) => if k < s.exporters then Export(false) else Dispatched
    case Done => SeeClosed
  }

  lemma {:induction false} PumpCanMove(s: State)
    requires Delivery.PumpOk(s) && Delivery.LogsFit(s) && !s.panicked && s.ctl.ctxDone
    ensures ByPump(NextPump(s)) && (!s.pipe.pump.Done? ==> Enabled(s, NextPump(s)))
  {
  }
}
