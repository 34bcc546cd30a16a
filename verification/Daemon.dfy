/** The running daemon as a step system: the scheduler's mutex-guarded worker
    table, its worker goroutines, the bounded results channel, the pipeline
    goroutine, the reload handler and the main goroutine with its shutdown order.

    One `Action` is one step that can interleave with the steps of every other
    goroutine.  A `select` with several ready cases is a choice between actions.
    `produced`, `sent`, `taken`, `lost`, `logs` and `outcomes` are histories.  */
module Daemon {
  import opened Types

  datatype Probe = Probe(name: string, kind: ProbeKind)

  datatype Result = Result(probe: string, payload: nat)

  /** A worker goroutine: at its select, inside `Run`, offering the results of
      that run one by one, or gone (its `done` channel closed). */
  datatype Phase = Waiting | Probing | Offering(rest: seq<Result>) | Exited

  datatype Worker = Worker(name: string, cancelled: bool, phase: Phase) {
    predicate Live() { !phase.Exited? }
    function Rest(): seq<Result> { if phase.Offering? then phase.rest else [] }
  }

  /** The two goroutines that call the scheduler.  `reloadMu` lets only one
      reload handler past its first line, so one reload thread is enough. */
  datatype Thread = Main | Reloader

  datatype Lock = Free | Held(owner: Thread)

  /** Progress of a thread inside Stop (first three) and Start (next two). */
  datatype Call =
    | NoCall
    | AtSnapshot
    | Cancelling(snap: set<nat>, left: set<nat>)
    | Awaiting(snap: set<nat>, left: set<nat>)
    | AtLock(todo: seq<Probe>)
    | Launching(todo: seq<Probe>)
    | Returned
  {
    /** The workers a Stop has taken out of the table and not yet answered for. */
    function Snap(): set<nat> { if Cancelling? || Awaiting? then snap else {} }
  }

  /** Where main is: starting probes, waiting for a signal, in the final Stop,
      past `cancel()`, past the exporter's Close, past the server's Shutdown. */
  datatype Stage = Booting | Serving | Stopping | Draining | Ended | Down

  datatype Reload = Quiet | Loading | Swapping(cfg: seq<Probe>)

  /** The pipeline goroutine; `Dispatch(r, k, d)` has called exporters 0..k-1. */
  datatype Pump = Receive | Dispatch(item: Result, next: nat, drain: bool) | Drain | Done

  datatype Sched = Sched(lock: Lock, table: map<string, nat>, pool: seq<Worker>)

  datatype Control = Control(
    stage: Stage, mainCall: Call,
    reload: Reload, reloadCall: Call,
    served: seq<Probe>, ctxDone: bool)
  {
    function Get(t: Thread): Call { if t.Main? then mainCall else reloadCall }
    function Set(t: Thread, c: Call): Control {
      if t.Main? then this.(mainCall := c) else this.(reloadCall := c)
    }
  }

  datatype Pipe = Pipe(
    pump: Pump, buf: seq<Result>, closed: bool, exporterClosed: bool,
    produced: seq<Result>, sent: seq<Result>, taken: seq<Result>,
    lost: seq<Result>, drops: multiset<string>,
    logs: seq<seq<Result>>, outcomes: seq<seq<bool>>, errors: seq<nat>)

  datatype State = State(
    cap: nat, exporters: nat, sched: Sched, ctl: Control, pipe: Pipe, panicked: bool)

  datatype Action =
    // worker goroutines
    | Tick(id: nat) | Finish(id: nat, results: seq<Result>) | Offer(id: nat) | Offered(id: nat) | Quit(id: nat)
    // Scheduler.Stop and Scheduler.Start, by either caller
    | Snapshot(t: Thread) | CancelOne(t: Thread, id: nat) | AllCancelled(t: Thread)
    | AwaitOne(t: Thread, id: nat) | StopReturns(t: Thread)
    | Acquire(t: Thread) | LaunchOne(t: Thread) | Release(t: Thread)
    // main
    | Signal | CancelContext | CloseExporter | ShutServer
    // reload handler
    | BeginReload | LoadFails | LoadSucceeds(cfg: seq<Probe>) | Publish
    // pipeline goroutine
    | Take | SeeCancel | Export(fails: bool) | Dispatched | CloseChannel | SeeClosed

  /** What config validation promises of a probe list: distinct names, known kinds. */
  predicate Accepted(cfg: seq<Probe>) {
    && (forall i, j :: 0 <= i < j < |cfg| ==> cfg[i].name != cfg[j].name)
    && (forall i :: 0 <= i < |cfg| ==> FactoryBuilds(cfg[i].kind))
  }

  function Names(cfg: seq<Probe>): set<string> {
    set p | p in cfg :: p.name
  }

  function Repeat<T>(n: nat, x: T): (r: seq<T>)
    ensures |r| == n && forall i :: 0 <= i < n ==> r[i] == x
  {
    seq(n, i => x)
  }

  /** The state in which `sched.Start` is about to be called. */
  function Boot(cfg: seq<Probe>, cap: nat, exporters: nat): State {
    State(cap, exporters,
          Sched(Free, map[], []),
          Control(Booting, AtLock(cfg), Quiet, NoCall, cfg, false),
          Pipe(Receive, [], false, false, [], [], [], [], multiset{},
               Repeat(exporters, []), Repeat(exporters, []), Repeat(exporters, 0)),
          false)
  }

  /** startLocked: a probe the factory refuses is skipped; otherwise a new worker
      takes the table entry of its name, whether or not one is there already. */
  function Launch(sched: Sched, p: Probe): Sched {
    if FactoryBuilds(p.kind) then
      sched.(table := sched.table[p.name := |sched.pool|],
             pool := sched.pool + [Worker(p.name, false, Waiting)])
    else sched
  }

  predicate WorkerIn(s: State, id: nat) { id < |s.sched.pool| }

  predicate Enabled(s: State, a: Action) {
    && !s.panicked
    && match a
       case Tick(i) => WorkerIn(s, i) && s.sched.pool[i].phase.Waiting?
       case Finish(i, rs) =>
         WorkerIn(s, i) && s.sched.pool[i].phase.Probing? &&
         (forall r :: r in rs ==> r.probe == s.sched.pool[i].name)
       case Offer(i) => WorkerIn(s, i) && s.sched.pool[i].Rest() != []
       case Offered(i) => WorkerIn(s, i) && s.sched.pool[i].phase == Offering([])
       case Quit(i) => WorkerIn(s, i) && s.sched.pool[i].phase.Waiting? && s.sched.pool[i].cancelled
       case Snapshot(t) => s.ctl.Get(t).AtSnapshot? && s.sched.lock.Free?
       case CancelOne(t, i) => s.ctl.Get(t).Cancelling? && i in s.ctl.Get(t).left && WorkerIn(s, i)
       case AllCancelled(t) => s.ctl.Get(t).Cancelling? && s.ctl.Get(t).left == {}
       case AwaitOne(t, i) =>
         s.ctl.Get(t).Awaiting? && i in s.ctl.Get(t).left && WorkerIn(s, i) && !s.sched.pool[i].Live()
       case StopReturns(t) =>
         s.ctl.Get(t).Awaiting? && s.ctl.Get(t).left == {} && (t.Reloader? ==> s.ctl.reload.Swapping?)
       case Acquire(t) => s.ctl.Get(t).AtLock? && s.sched.lock.Free?
       case LaunchOne(t) => s.ctl.Get(t).Launching? && s.ctl.Get(t).todo != []
       case Release(t) => s.ctl.Get(t).Launching? && s.ctl.Get(t).todo == []
       case Signal => s.ctl.stage.Serving?
       case CancelContext => s.ctl.stage.Stopping? && s.ctl.mainCall.Returned?
       case CloseExporter => s.ctl.stage.Draining? && s.pipe.pump.Done?
       case ShutServer => s.ctl.stage.Ended?
       case BeginReload => s.ctl.reload.Quiet? && !s.ctl.stage.Down?
       case LoadFails => s.ctl.reload.Loading?
       case LoadSucceeds(cfg) => s.ctl.reload.Loading? && Accepted(cfg)
       case Publish => s.ctl.reload.Swapping? && s.ctl.reloadCall.Returned?
       case Take => (s.pipe.pump.Receive? || s.pipe.pump.Drain?) && s.pipe.buf != []
       case SeeCancel => s.pipe.pump.Receive? && s.ctl.ctxDone
       case Export(_) =>
         s.pipe.pump.Dispatch? && s.pipe.pump.next < s.exporters &&
         s.pipe.pump.next < |s.pipe.logs| && |s.pipe.logs| == |s.pipe.outcomes| == |s.pipe.errors|
       case Dispatched => s.pipe.pump.Dispatch? && s.pipe.pump.next >= s.exporters
       case CloseChannel => s.pipe.pump.Drain? && s.pipe.buf == []
       case SeeClosed => s.pipe.pump.Receive? && s.pipe.closed && s.pipe.buf == []
  }

  function WithWorker(s: State, i: nat, w: Worker): State
    requires WorkerIn(s, i)
  {
    s.(sched := s.sched.(pool := s.sched.pool[i := w]))
  }

  /** The send of scheduler.go: a send on a closed channel panics, a full buffer
      drops the result and records the probe's name. */
  function Send(s: State, i: nat): State
    requires Enabled(s, Offer(i))
  {
    var w := s.sched.pool[i];
    var r := w.phase.rest[0];
    var p := s.pipe;
    if p.closed then s.(panicked := true)
    else
      var s' := WithWorker(s, i, w.(phase := Offering(w.phase.rest[1..])));
      if |p.buf| < s.cap then s'.(pipe := p.(buf := p.buf + [r], sent := p.sent + [r]))
      else s'.(pipe := p.(lost := p.lost + [r], drops := p.drops + multiset{w.name}))
  }

  function CallExporter(s: State, fails: bool): Pipe
    requires Enabled(s, Export(fails))
  {
    var p := s.pipe;
    var k := p.pump.next;
    p.(pump := p.pump.(next := k + 1),
       logs := p.logs[k := p.logs[k] + [p.pump.item]],
       outcomes := p.outcomes[k := p.outcomes[k] + [fails]],
       errors := p.errors[k := p.errors[k] + if fails then 1 else 0])
  }

  function Apply(s: State, a: Action): State
    requires Enabled(s, a)
  {
    match a
    case Tick(i) => WithWorker(s, i, s.sched.pool[i].(phase := Probing))
    case Finish(i, rs) =>
      WithWorker(s, i, s.sched.pool[i].(phase := Offering(rs)))
      .(pipe := s.pipe.(produced := s.pipe.produced + rs))
    case Offer(i) => Send(s, i)
    case Offered(i) => WithWorker(s, i, s.sched.pool[i].(phase := Waiting))
    case Quit(i) => WithWorker(s, i, s.sched.pool[i].(phase := Exited))
    case Snapshot(t) =>
      var ids := s.sched.table.Values;
      s.(sched := s.sched.(table := map[]), ctl := s.ctl.Set(t, Cancelling(ids, ids)))
    case CancelOne(t, i) =>
      var c := s.ctl.Get(t);
      WithWorker(s, i, s.sched.pool[i].(cancelled := true))
      .(ctl := s.ctl.Set(t, Cancelling(c.snap, c.left - {i})))
    case AllCancelled(t) =>
      s.(ctl := s.ctl.Set(t, Awaiting(s.ctl.Get(t).snap, s.ctl.Get(t).snap)))
    case AwaitOne(t, i) =>
      var c := s.ctl.Get(t);
      s.(ctl := s.ctl.Set(t, Awaiting(c.snap, c.left - {i})))
    case StopReturns(t) =>
      s.(ctl := s.ctl.Set(t, if t.Main? then Returned else AtLock(s.ctl.reload.cfg)))
    case Acquire(t) =>
      s.(sched := s.sched.(lock := Held(t)), ctl := s.ctl.Set(t, Launching(s.ctl.Get(t).todo)))
    case LaunchOne(t) =>
      var todo := s.ctl.Get(t).todo;
      s.(sched := Launch(s.sched, todo[0]), ctl := s.ctl.Set(t, Launching(todo[1..])))
    case Release(t) =>
      s.(sched := s.sched.(lock := Free),
         ctl := if t.Main? then s.ctl.(mainCall := NoCall, stage := Serving)
                else s.ctl.(reloadCall := Returned))
    case Signal => s.(ctl := s.ctl.(stage := Stopping, mainCall := AtSnapshot))
    case CancelContext => s.(ctl := s.ctl.(stage := Draining, mainCall := NoCall, ctxDone := true))
    case CloseExporter => s.(ctl := s.ctl.(stage := Ended), pipe := s.pipe.(exporterClosed := true))
    case ShutServer => s.(ctl := s.ctl.(stage := Down))
    case BeginReload => s.(ctl := s.ctl.(reload := Loading))
    case LoadFails => s.(ctl := s.ctl.(reload := Quiet))
    case LoadSucceeds(cfg) => s.(ctl := s.ctl.(reload := Swapping(cfg), reloadCall := AtSnapshot))
    case Publish =>
      s.(ctl := s.ctl.(served := s.ctl.reload.cfg, reload := Quiet, reloadCall := NoCall))
    case Take =>
      var r := s.pipe.buf[0];
      s.(pipe := s.pipe.(buf := s.pipe.buf[1..], taken := s.pipe.taken + [r],
                         pump := Dispatch(r, 0, s.pipe.pump.Drain?)))
    case SeeCancel => s.(pipe := s.pipe.(pump := Drain))
    case Export(fails) => s.(pipe := CallExporter(s, fails))
    case Dispatched => s.(pipe := s.pipe.(pump := if s.pipe.pump.drain then Drain else Receive))
    case CloseChannel => s.(pipe := s.pipe.(closed := true, pump := Done))
    case SeeClosed => s.(pipe := s.pipe.(pump := Done))
  }

  /** The steps of the pipeline goroutine. */
  predicate ByPump(a: Action) {
    a.Take? || a.SeeCancel? || a.Export? || a.Dispatched? || a.CloseChannel? || a.SeeClosed?
  }

  lemma {:induction false} PumpAlone(s: State, a: Action)
    requires Enabled(s, a) && ByPump(a)
    ensures Apply(s, a).sched == s.sched && Apply(s, a).ctl == s.ctl && !Apply(s, a).panicked
  {
  }

  // -------- Runs --------

  predicate Runs(s: State, acts: seq<Action>)
    decreases |acts|
  {
    acts == [] || (Enabled(s, acts[0]) && Runs(Apply(s, acts[0]), acts[1..]))
  }

  function After(s: State, acts: seq<Action>): State
    requires Runs(s, acts)
    decreases |acts|
  {
    if acts == [] then s else After(Apply(s, acts[0]), acts[1..])
  }

  lemma {:induction false} RunsCons(s: State, a: Action, acts: seq<Action>)
    requires Enabled(s, a) && Runs(Apply(s, a), acts)
    ensures Runs(s, [a] + acts) && After(s, [a] + acts) == After(Apply(s, a), acts)
  {
    assert ([a] + acts)[1..] == acts;
  }

  lemma {:induction false} RunsConcat(s: State, first: seq<Action>, second: seq<Action>)
    requires Runs(s, first) && Runs(After(s, first), second)
    ensures Runs(s, first + second) && After(s, first + second) == After(After(s, first), second)
    decreases |first|
  {
    if first == [] {
      assert first + second == second;
    } else {
      RunsConcat(Apply(s, first[0]), first[1..], second);
      assert first + second == [first[0]] + (first[1..] + second);
      RunsCons(s, first[0], first[1..] + second);
    }
  }

  /** A Stop, and the Start that is to follow it, before it has the lock. */
  predicate BeforeLock(c: Call) { c.AtSnapshot? || c.Cancelling? || c.Awaiting? || c.AtLock? }

  /** No reload is between its load and its Start's lock but while main is serving, and
      none is past its load before main's Start has returned. */
  predicate Guarded(s: State) {
    s.ctl.reload.Swapping? ==>
      s.ctl.stage.Serving? || (!s.ctl.stage.Booting? && !BeforeLock(s.ctl.reloadCall))
  }

  predicate GuardedRun(s: State, acts: seq<Action>)
    ensures GuardedRun(s, acts) ==> Runs(s, acts)
    decreases |acts|
  {
    Guarded(s) && (acts == [] || (Enabled(s, acts[0]) && GuardedRun(Apply(s, acts[0]), acts[1..])))
  }

  /** A launch whose probe name already has an entry in the worker table. */
  predicate Overwrites(s: State, a: Action) {
    a.LaunchOne? && Enabled(s, a) &&
    FactoryBuilds(s.ctl.Get(a.t).todo[0].kind) && s.ctl.Get(a.t).todo[0].name in s.sched.table
  }

  predicate NoOverwriteRun(s: State, acts: seq<Action>)
    ensures NoOverwriteRun(s, acts) ==> Runs(s, acts)
    decreases |acts|
  {
    acts == [] ||
    (Enabled(s, acts[0]) && !Overwrites(s, acts[0]) && NoOverwriteRun(Apply(s, acts[0]), acts[1..]))
  }

  // -------- Program order --------

  /** Main's call fits its stage, and the reload handler's call fits its progress. */
  predicate InOrder(ctl: Control) {
    && (ctl.stage.Booting? <==> ctl.mainCall.AtLock? || ctl.mainCall.Launching?)
    && (ctl.stage.Stopping? <==> ctl.mainCall.AtSnapshot? || ctl.mainCall.Cancelling?
                                 || ctl.mainCall.Awaiting? || ctl.mainCall.Returned?)
    && (ctl.reload.Swapping? <==> !ctl.reloadCall.NoCall?)
    && (ctl.ctxDone <==> ctl.stage.Draining? || ctl.stage.Ended? || ctl.stage.Down?)
  }

  lemma OrderStep(s: State, a: Action)
    requires Enabled(s, a) && InOrder(s.ctl)
    ensures InOrder(Apply(s, a).ctl)
  {
  }
}
