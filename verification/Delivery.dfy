/** What holds in every reachable state of the daemon, whatever the reload
    handler does: conservation of results, fan-out order and channel closing. */
module Delivery {
  import opened Daemon
  import opened Multisets

  // -------- Results not yet offered, and multisets of results --------

  /** The results the workers still hold, worker by worker. */
  function Unoffered(pool: seq<Worker>): seq<Result> {
    if pool == [] then [] else pool[0].Rest() + Unoffered(pool[1..])
  }

  lemma {:induction false} UnofferedAppend(pool: seq<Worker>, w: Worker)
    ensures Unoffered(pool + [w]) == Unoffered(pool) + w.Rest()
  {
    if pool == [] {
      assert pool + [w] == [w];
      assert Unoffered([w]) == w.Rest() + Unoffered([]);
    } else {
      assert (pool + [w])[1..] == pool[1..] + [w];
      UnofferedAppend(pool[1..], w);
    }
  }

  /** Replacing one worker exchanges its results for those of the new one. */
  lemma {:induction false} UnofferedUpdate(pool: seq<Worker>, i: nat, w: Worker)
    requires i < |pool|
    ensures multiset(Unoffered(pool[i := w])) + multiset(pool[i].Rest()) ==
            multiset(Unoffered(pool)) + multiset(w.Rest())
  {
    if i == 0 {
      assert pool[i := w][1..] == pool[1..];
    } else {
      assert pool[i := w][1..] == pool[1..][i - 1 := w];
      UnofferedUpdate(pool[1..], i - 1, w);
      var m, head := multiset(Unoffered(pool[1..])), multiset(pool[0].Rest());
      var m' := multiset(Unoffered(pool[1..][i - 1 := w]));
      assert multiset(Unoffered(pool)) == head + m && multiset(Unoffered(pool[i := w])) == head + m';
      Reassociate(head, m', multiset(pool[i].Rest()), m, multiset(w.Rest()));
    }
  }

  /** A worker that hands over its first result holds one result less. */
  lemma {:induction false} UnofferedShrinks(pool: seq<Worker>, i: nat, r: Result, w: Worker)
    requires i < |pool| && pool[i].Rest() == [r] + w.Rest()
    ensures multiset(Unoffered(pool)) == multiset(Unoffered(pool[i := w])) + multiset{r}
  {
    UnofferedUpdate(pool, i, w);
    assert multiset(pool[i].Rest()) == multiset{r} + multiset(w.Rest());
    Cancel(multiset(Unoffered(pool[i := w])) + multiset{r}, multiset(Unoffered(pool)), multiset(w.Rest()));
  }

  lemma {:induction false} NothingUnoffered(pool: seq<Worker>)
    requires forall i :: 0 <= i < |pool| ==> !pool[i].Live()
    ensures Unoffered(pool) == []
  {
    if pool != [] { NothingUnoffered(pool[1..]); }
  }

  function ProbesOf(rs: seq<Result>): multiset<string> {
    if rs == [] then multiset{} else multiset{rs[0].probe} + ProbesOf(rs[1..])
  }

  lemma {:induction false} ProbesOfConcat(a: seq<Result>, b: seq<Result>)
    ensures ProbesOf(a + b) == ProbesOf(a) + ProbesOf(b)
  {
    if a == [] {
      assert a + b == b;
    } else {
      assert (a + b)[1..] == a[1..] + b;
      ProbesOfConcat(a[1..], b);
    }
  }

  lemma {:induction false} ProbesOfWithout(b: seq<Result>, k: nat)
    requires k < |b|
    ensures ProbesOf(b) == ProbesOf(Without(b, k)) + multiset{b[k].probe}
  {
    var front, back := b[..k], b[k + 1..];
    assert b == front + ([b[k]] + back);
    ProbesOfConcat(front, back);
    ProbesOfConcat(front, [b[k]] + back);
    assert ([b[k]] + back)[1..] == back;
  }

  /** How many results each probe has depends only on the multiset of results. */
  lemma {:induction false} ProbesOfMultiset(a: seq<Result>, b: seq<Result>)
    requires multiset(a) == multiset(b)
    ensures ProbesOf(a) == ProbesOf(b)
  {
    if a == [] {
      assert |multiset(b)| == 0;
    } else {
      var k := SameRest(a, b);
      ProbesOfMultiset(a[1..], Without(b, k));
      ProbesOfWithout(b, k);
    }
  }

  // -------- The invariant --------

  function Failures(outcomes: seq<bool>): nat {
    if outcomes == [] then 0
    else Failures(outcomes[..|outcomes| - 1]) + if outcomes[|outcomes| - 1] then 1 else 0
  }

  /** What exporter `j` must have seen: everything taken from the channel, less
      the result in dispatch if that has not reached `j` yet. */
  function Seen(p: Pipe, j: nat): seq<Result>
    requires p.pump.Dispatch? ==> p.taken != []
  {
    if p.pump.Dispatch? && p.pump.next <= j then p.taken[..|p.taken| - 1] else p.taken
  }

  /** Main is past the exporter's Close. */
  predicate AfterClose(ctl: Control) { ctl.stage.Ended? || ctl.stage.Down? }

  ghost predicate PumpOk(s: State) {
    var p := s.pipe;
    && (p.pump.Dispatch? ==>
          p.pump.next <= s.exporters && p.taken != [] && p.taken[|p.taken| - 1] == p.pump.item)
    && (p.closed <==> p.pump.Done?)
    && (p.closed ==> p.buf == [])
    && ((p.pump.Drain? || p.pump.Done? || (p.pump.Dispatch? && p.pump.drain)) ==> s.ctl.ctxDone)
    && (p.exporterClosed ==> p.pump.Done?)
    && (p.exporterClosed <==> AfterClose(s.ctl))
  }

  ghost predicate LogsFit(s: State) { |s.pipe.logs| == |s.pipe.outcomes| == |s.pipe.errors| == s.exporters }

  ghost predicate FanOut(s: State)
    requires PumpOk(s)
  {
    var p := s.pipe;
    && LogsFit(s)
    && (forall j :: 0 <= j < s.exporters ==> p.logs[j] == Seen(p, j))
    && (forall j :: 0 <= j < s.exporters ==>
          |p.outcomes[j]| == |p.logs[j]| && p.errors[j] == Failures(p.outcomes[j]))
  }

  /** Nothing is lost or made up: every produced result is enqueued, dropped or still held. */
  ghost predicate Balanced(p: Pipe, pool: seq<Worker>) {
    multiset(p.produced) == multiset(p.sent) + multiset(p.lost) + multiset(Unoffered(pool))
  }

  ghost predicate Conserved(cap: nat, p: Pipe, pool: seq<Worker>) {
    && p.sent == p.taken + p.buf
    && |p.buf| <= cap
    && (p.lost != [] ==> |p.sent| >= cap)
    && p.drops == ProbesOf(p.lost)
    && Balanced(p, pool)
    && Labelled(pool)
  }

  /** Every result a worker holds carries the worker's own probe name. */
  ghost predicate Labelled(pool: seq<Worker>) {
    forall i, r :: 0 <= i < |pool| && r in pool[i].Rest() ==> r.probe == pool[i].name
  }

  ghost predicate DeliveryInv(s: State) {
    InOrder(s.ctl) && PumpOk(s) && FanOut(s) && Conserved(s.cap, s.pipe, s.sched.pool)
  }

  lemma BootDelivers(cfg: seq<Probe>, cap: nat, exporters: nat)
    ensures DeliveryInv(Boot(cfg, cap, exporters))
  {
  }

  // -------- Preservation --------

  lemma {:induction false} PumpStep(s: State, a: Action)
    requires Enabled(s, a) && InOrder(s.ctl) && PumpOk(s)
    ensures PumpOk(Apply(s, a))
  {
    if ByPump(a) {
      PumpAlone(s, a);
    } else {
      PumpFrame(s, a);
      CloseFrame(s, a);
    }
  }

  /** The other goroutines leave the pump alone; they fill the buffer only while it is
      open, never undo the cancellation, and close the exporter only after the pump. */
  lemma {:induction false} PumpFrame(s: State, a: Action)
    requires Enabled(s, a) && !ByPump(a)
    ensures var p, p' := s.pipe, Apply(s, a).pipe;
            && p'.pump == p.pump && p'.taken == p.taken && p'.closed == p.closed
            && (p.closed ==> p'.buf == p.buf)
            && (p'.exporterClosed <==> p.exporterClosed || a.CloseExporter?)
            && (a.CloseExporter? ==> p.pump.Done?)
            && Apply(s, a).exporters == s.exporters
            && (s.ctl.ctxDone ==> Apply(s, a).ctl.ctxDone)
  {
  }

  lemma {:induction false} CloseFrame(s: State, a: Action)
    requires Enabled(s, a) && InOrder(s.ctl)
    ensures AfterClose(Apply(s, a).ctl) <==> AfterClose(s.ctl) || a.CloseExporter?
  {
  }

  lemma {:induction false} FanOutStep(s: State, a: Action)
    requires Enabled(s, a) && InOrder(s.ctl) && PumpOk(s) && FanOut(s)
    ensures PumpOk(Apply(s, a)) && FanOut(Apply(s, a))
  {
    PumpStep(s, a);
    if a.Export? {
      ExportFansOut(s, a.fails);
    } else if a.Take? {
      var taken := Apply(s, a).pipe.taken;
      assert taken[..|taken| - 1] == s.pipe.taken;
    } else {
      LogsFrame(s, a);
    }
  }

  lemma {:induction false} ExportFansOut(s: State, fails: bool)
    requires Enabled(s, Export(fails)) && PumpOk(s) && FanOut(s)
    requires PumpOk(s.(pipe := CallExporter(s, fails)))
    ensures FanOut(s.(pipe := CallExporter(s, fails)))
  {
    var p, p' := s.pipe, CallExporter(s, fails);
    var k := p.pump.next;
    assert p.taken == p.taken[..|p.taken| - 1] + [p.pump.item];
    assert p'.outcomes[k][..|p'.outcomes[k]| - 1] == p.outcomes[k];
  }

  /** Only taking a result and calling an exporter change what is to be seen or was seen. */
  lemma {:induction false} LogsFrame(s: State, a: Action)
    requires Enabled(s, a) && !a.Export? && !a.Take? && PumpOk(s)
    ensures var p, p' := s.pipe, Apply(s, a).pipe;
            && p'.taken == p.taken && p'.logs == p.logs && p'.outcomes == p.outcomes && p'.errors == p.errors
            && (p'.pump == p.pump || (!p'.pump.Dispatch? && (p.pump.Dispatch? ==> p.pump.next == s.exporters)))
            && Apply(s, a).exporters == s.exporters
  {
  }

  lemma {:induction false} WorkerStepConserves(cap: nat, p: Pipe, pool: seq<Worker>, i: nat, w: Worker)
    requires Conserved(cap, p, pool) && i < |pool| && w.name == pool[i].name
    requires w.Rest() == pool[i].Rest()
    ensures Conserved(cap, p, pool[i := w])
  {
    UnofferedUpdate(pool, i, w);
    Cancel(multiset(Unoffered(pool[i := w])), multiset(Unoffered(pool)), multiset(w.Rest()));
  }

  lemma {:induction false} FinishConserves(s: State, i: nat, rs: seq<Result>)
    requires Enabled(s, Finish(i, rs)) && Conserved(s.cap, s.pipe, s.sched.pool)
    ensures Conserved(s.cap, s.pipe.(produced := s.pipe.produced + rs),
                      s.sched.pool[i := s.sched.pool[i].(phase := Offering(rs))])
  {
    var p, pool := s.pipe, s.sched.pool;
    var w := pool[i].(phase := Offering(rs));
    UnofferedUpdate(pool, i, w);
    FinishBalances(p.produced, rs, multiset(p.sent) + multiset(p.lost), Unoffered(pool), Unoffered(pool[i := w]));
    assert Labelled(pool[i := w]);
  }

  lemma {:induction false} FinishBalances(
      produced: seq<Result>, rs: seq<Result>, gone: multiset<Result>, held: seq<Result>, held': seq<Result>)
    requires multiset(produced) == gone + multiset(held)
    requires multiset(held') == multiset(held) + multiset(rs)
    ensures multiset(produced + rs) == gone + multiset(held')
  {
    assert multiset(produced + rs) == multiset(produced) + multiset(rs);
  }

  lemma {:induction false} Transfer(prod: multiset<Result>, x: multiset<Result>, y: multiset<Result>,
                                    held: multiset<Result>, held': multiset<Result>, r: multiset<Result>)
    requires prod == x + y + held && held == held' + r
    ensures prod == (x + r) + y + held' && prod == x + (y + r) + held'
  {
    assert x + y + (held' + r) == (x + r) + y + held';
    assert x + y + (held' + r) == x + (y + r) + held';
  }

  /** Handing over `r` keeps the books balanced, whether it is enqueued or dropped. */
  lemma {:induction false} OfferBalances(p: Pipe, pool: seq<Worker>, i: nat, r: Result, w: Worker)
    requires Balanced(p, pool) && i < |pool| && pool[i].Rest() == [r] + w.Rest()
    ensures multiset(p.produced) == multiset(p.sent + [r]) + multiset(p.lost) + multiset(Unoffered(pool[i := w]))
    ensures multiset(p.produced) == multiset(p.sent) + multiset(p.lost + [r]) + multiset(Unoffered(pool[i := w]))
  {
    UnofferedShrinks(pool, i, r, w);
    Transfer(multiset(p.produced), multiset(p.sent), multiset(p.lost),
             multiset(Unoffered(pool)), multiset(Unoffered(pool[i := w])), multiset{r});
  }

  lemma {:induction false} DropRecorded(lost: seq<Result>, r: Result)
    ensures ProbesOf(lost + [r]) == ProbesOf(lost) + multiset{r.probe}
  {
    ProbesOfConcat(lost, [r]);
    assert [r][1..] == [];
  }

  lemma {:induction false} OfferConserves(s: State, i: nat)
    requires Enabled(s, Offer(i)) && Conserved(s.cap, s.pipe, s.sched.pool)
    ensures Conserved(s.cap, Send(s, i).pipe, Send(s, i).sched.pool)
  {
    var p, pool := s.pipe, s.sched.pool;
    if !p.closed {
      var w := pool[i];
      var r := w.phase.rest[0];
      var w' := w.(phase := Offering(w.phase.rest[1..]));
      assert w.Rest() == [r] + w'.Rest();
      assert r in w.Rest();
      assert Send(s, i).sched.pool == pool[i := w'];
      assert Labelled(pool[i := w']);
      OfferBalances(p, pool, i, r, w');
      if |p.buf| < s.cap {
        assert p.taken + (p.buf + [r]) == (p.taken + p.buf) + [r];
      } else {
        DropRecorded(p.lost, r);
      }
    }
  }

  /** Nothing that `Conserved` speaks of has changed, but for a move from buffer to pump. */
  lemma {:induction false} Unmoved(cap: nat, p: Pipe, p': Pipe, pool: seq<Worker>)
    requires Conserved(cap, p, pool)
    requires p'.produced == p.produced && p'.sent == p.sent && p'.lost == p.lost && p'.drops == p.drops
    requires p'.taken + p'.buf == p.taken + p.buf && |p'.buf| <= |p.buf|
    ensures Conserved(cap, p', pool)
  {
  }

  lemma {:induction false} WorkerConserves(s: State, a: Action)
    requires Enabled(s, a) && Conserved(s.cap, s.pipe, s.sched.pool)
    requires a.Tick? || a.Finish? || a.Offer? || a.Offered? || a.Quit? || a.CancelOne?
    ensures Conserved(s.cap, Apply(s, a).pipe, Apply(s, a).sched.pool)
  {
    var p, pool, i := s.pipe, s.sched.pool, a.id;
    match a
    case Tick(_) => WorkerStepConserves(s.cap, p, pool, i, pool[i].(phase := Probing));
    case Finish(_, rs) => FinishConserves(s, i, rs);
    case Offer(_) => OfferConserves(s, i);
    case Offered(_) => WorkerStepConserves(s.cap, p, pool, i, pool[i].(phase := Waiting));
    case Quit(_) => WorkerStepConserves(s.cap, p, pool, i, pool[i].(phase := Exited));
    case CancelOne(_, _) => WorkerStepConserves(s.cap, p, pool, i, pool[i].(cancelled := true));
  }

  lemma {:induction false} LaunchConserves(s: State, a: Action)
    requires a.LaunchOne? && Enabled(s, a) && Conserved(s.cap, s.pipe, s.sched.pool)
    ensures Conserved(s.cap, Apply(s, a).pipe, Apply(s, a).sched.pool)
  {
    var p := s.ctl.Get(a.t).todo[0];
    AppendConserves(s.cap, s.pipe, s.sched.pool, Worker(p.name, false, Waiting));
  }

  lemma {:induction false} AppendConserves(cap: nat, p: Pipe, pool: seq<Worker>, w: Worker)
    requires Conserved(cap, p, pool) && w.Rest() == []
    ensures Conserved(cap, p, pool + [w])
  {
    UnofferedAppend(pool, w);
    assert Unoffered(pool + [w]) == Unoffered(pool);
  }

  ghost predicate ByWorkerOrLaunch(a: Action) {
    a.Tick? || a.Finish? || a.Offer? || a.Offered? || a.Quit? || a.CancelOne? || a.LaunchOne?
  }

  lemma {:induction false} OtherwiseUnmoved(s: State, a: Action)
    requires Enabled(s, a) && !ByWorkerOrLaunch(a)
    ensures var p, p' := s.pipe, Apply(s, a).pipe;
            && Apply(s, a).sched.pool == s.sched.pool
            && p'.produced == p.produced && p'.sent == p.sent && p'.lost == p.lost && p'.drops == p.drops
            && p'.taken + p'.buf == p.taken + p.buf && |p'.buf| <= |p.buf|
  {
    var p := s.pipe;
    if a.Take? { assert p.taken + p.buf == (p.taken + [p.buf[0]]) + p.buf[1..]; }
  }

  lemma {:induction false} ConserveStep(s: State, a: Action)
    requires Enabled(s, a) && Conserved(s.cap, s.pipe, s.sched.pool)
    ensures Conserved(s.cap, Apply(s, a).pipe, Apply(s, a).sched.pool)
  {
    if a.LaunchOne? {
      LaunchConserves(s, a);
    } else if ByWorkerOrLaunch(a) {
      WorkerConserves(s, a);
    } else {
      OtherwiseUnmoved(s, a);
      Unmoved(s.cap, s.pipe, Apply(s, a).pipe, s.sched.pool);
    }
  }

  // -------- Theorems --------

  lemma {:induction false} DeliveryStep(s: State, a: Action)
    requires Enabled(s, a) && DeliveryInv(s)
    ensures DeliveryInv(Apply(s, a))
  {
    OrderStep(s, a);
    FanOutStep(s, a);
    ConserveStep(s, a);
  }

  lemma {:induction false} DeliveryHolds(s: State, acts: seq<Action>)
    requires Runs(s, acts) && DeliveryInv(s)
    ensures DeliveryInv(After(s, acts))
    ensures After(s, acts).cap == s.cap && After(s, acts).exporters == s.exporters
    decreases |acts|
  {
    if acts != [] {
      DeliveryStep(s, acts[0]);
      DeliveryHolds(Apply(s, acts[0]), acts[1..]);
    }
  }

  /** Conservation, probe by probe: in every reachable state each produced result is
      taken for dispatch, buffered, recorded as dropped under its probe's name, or still held. */
  lemma {:induction false} ConservationPerProbe(cfg: seq<Probe>, cap: nat, exporters: nat, acts: seq<Action>)
    requires Runs(Boot(cfg, cap, exporters), acts)
    ensures var s := After(Boot(cfg, cap, exporters), acts);
            && s.pipe.sent == s.pipe.taken + s.pipe.buf
            && forall name ::
                 ProbesOf(s.pipe.produced)[name] ==
                 ProbesOf(s.pipe.taken)[name] + ProbesOf(s.pipe.buf)[name] + s.pipe.drops[name]
                 + ProbesOf(Unoffered(s.sched.pool))[name]
  {
    BootDelivers(cfg, cap, exporters);
    DeliveryHolds(Boot(cfg, cap, exporters), acts);
    var s := After(Boot(cfg, cap, exporters), acts);
    var p, held := s.pipe, Unoffered(s.sched.pool);
    assert multiset(p.sent + p.lost + held) == multiset(p.sent) + multiset(p.lost) + multiset(held);
    ProbesOfMultiset(p.produced, p.sent + p.lost + held);
    ProbesOfConcat(p.sent + p.lost, held);
    ProbesOfConcat(p.sent, p.lost);
    ProbesOfConcat(p.taken, p.buf);
  }

  /** In every reachable state a step drops a result exactly if it is a send into a full,
      open channel; then it drops the one result that was offered, under its probe's name. */
  lemma {:induction false} DropsExactlyWhenFull(
      cfg: seq<Probe>, cap: nat, exporters: nat, acts: seq<Action>, a: Action)
    requires Runs(Boot(cfg, cap, exporters), acts) && Enabled(After(Boot(cfg, cap, exporters), acts), a)
    ensures var s := After(Boot(cfg, cap, exporters), acts);
            var s' := Apply(s, a);
            if a.Offer? && |s.pipe.buf| == cap && !s.pipe.closed then
              var r := s.sched.pool[a.id].Rest()[0];
              s'.pipe == s.pipe.(lost := s.pipe.lost + [r], drops := s.pipe.drops + multiset{r.probe})
            else
              s'.pipe.lost == s.pipe.lost && s'.pipe.drops == s.pipe.drops
  {
    BootDelivers(cfg, cap, exporters);
    DeliveryHolds(Boot(cfg, cap, exporters), acts);
    if a.Offer? {
      SendDropsIffFull(After(Boot(cfg, cap, exporters), acts), a.id);
    } else {
      LossFrame(After(Boot(cfg, cap, exporters), acts), a);
    }
  }

  lemma {:induction false} SendDropsIffFull(s: State, i: nat)
    requires Enabled(s, Offer(i)) && |s.pipe.buf| <= s.cap && Labelled(s.sched.pool)
    ensures var p, p' := s.pipe, Send(s, i).pipe;
            if |p.buf| == s.cap && !p.closed then
              var r := s.sched.pool[i].Rest()[0];
              p' == p.(lost := p.lost + [r], drops := p.drops + multiset{r.probe})
            else
              p'.lost == p.lost && p'.drops == p.drops
  {
    assert s.sched.pool[i].Rest()[0] in s.sched.pool[i].Rest();
  }

  lemma {:induction false} LossFrame(s: State, a: Action)
    requires Enabled(s, a) && !a.Offer?
    ensures Apply(s, a).pipe.lost == s.pipe.lost && Apply(s, a).pipe.drops == s.pipe.drops
  {
  }

  /** A drop needs a full buffer, so a daemon that has produced no more results
      than the buffer holds has dropped none. */
  lemma {:induction false} NoDropWhileItFits(cfg: seq<Probe>, cap: nat, exporters: nat, acts: seq<Action>)
    requires Runs(Boot(cfg, cap, exporters), acts)
    requires |After(Boot(cfg, cap, exporters), acts).pipe.produced| <= cap
    ensures After(Boot(cfg, cap, exporters), acts).pipe.lost == []
  {
    BootDelivers(cfg, cap, exporters);
    DeliveryHolds(Boot(cfg, cap, exporters), acts);
    var s := After(Boot(cfg, cap, exporters), acts);
    var p := s.pipe;
    assert |multiset(p.produced)| == |multiset(p.sent)| + |multiset(p.lost)| + |multiset(Unoffered(s.sched.pool))|;
  }

  /** Every exporter sees the enqueue order, each result once, whichever Export calls
      fail; two exporters differ by the one result in dispatch at most; its error
      count is the number of its failing calls. */
  lemma {:induction false} EveryExporterSeesEnqueueOrder(
      cfg: seq<Probe>, cap: nat, exporters: nat, acts: seq<Action>, j: nat)
    requires Runs(Boot(cfg, cap, exporters), acts) && j < exporters
    ensures var p := After(Boot(cfg, cap, exporters), acts).pipe;
            && |p.logs| == |p.outcomes| == |p.errors| == exporters
            && p.logs[j] <= p.sent
            && |p.taken| - 1 <= |p.logs[j]| <= |p.taken|
            && (!p.pump.Dispatch? ==> p.logs[j] == p.taken)
            && (p.closed ==> p.logs[j] == p.sent)
            && |p.outcomes[j]| == |p.logs[j]| && p.errors[j] == Failures(p.outcomes[j])
  {
    BootDelivers(cfg, cap, exporters);
    DeliveryHolds(Boot(cfg, cap, exporters), acts);
  }

  /** The channel is empty from its closing on; the exporter is closed exactly in main's
      last stages, after the channel; and no Export has followed. */
  lemma {:induction false} ClosedMeansDrained(cfg: seq<Probe>, cap: nat, exporters: nat, acts: seq<Action>)
    requires Runs(Boot(cfg, cap, exporters), acts)
    ensures var s := After(Boot(cfg, cap, exporters), acts);
            && (s.pipe.closed ==> s.pipe.buf == [] && s.pipe.taken == s.pipe.sent)
            && (s.pipe.exporterClosed ==> s.pipe.closed)
            && (s.pipe.exporterClosed <==> s.ctl.stage.Ended? || s.ctl.stage.Down?)
    ensures forall i, j :: 0 <= i < j < |acts| && acts[i].CloseExporter? ==> !acts[j].Export?
  {
    BootDelivers(cfg, cap, exporters);
    DeliveryHolds(Boot(cfg, cap, exporters), acts);
    forall i, j | 0 <= i < j < |acts| && acts[i].CloseExporter? ensures !acts[j].Export? {
      NothingAfterClose(Boot(cfg, cap, exporters), acts, i, j);
    }
  }

  lemma {:induction false} DoneForever(s: State, acts: seq<Action>)
    requires Runs(s, acts) && s.pipe.pump.Done?
    ensures forall j :: 0 <= j < |acts| ==> !ByPump(acts[j])
    decreases |acts|
  {
    if acts != [] {
      DoneStays(s, acts[0]);
      DoneForever(Apply(s, acts[0]), acts[1..]);
    }
  }

  lemma {:induction false} DoneStays(s: State, a: Action)
    requires Enabled(s, a) && s.pipe.pump.Done?
    ensures !ByPump(a) && Apply(s, a).pipe.pump.Done?
  {
  }

  /** In any run whatever: once the exporter is closed, or the channel is, the pipeline takes
      no further step; in particular no Export follows the exporter's Close. */
  lemma {:induction false} NothingAfterClose(s: State, acts: seq<Action>, i: nat, j: nat)
    requires Runs(s, acts) && i < j < |acts| && (acts[i].CloseExporter? || acts[i].CloseChannel?)
    ensures !ByPump(acts[j]) && !acts[j].Export?
    decreases |acts|
  {
    if i == 0 {
      CloseIsDone(s, acts[0]);
      DoneForever(Apply(s, acts[0]), acts[1..]);
      assert acts[j] == acts[1..][j - 1];
    } else {
      NothingAfterClose(Apply(s, acts[0]), acts[1..], i - 1, j - 1);
    }
  }

  lemma {:induction false} CloseIsDone(s: State, a: Action)
    requires Enabled(s, a) && (a.CloseExporter? || a.CloseChannel?)
    ensures Apply(s, a).pipe.pump.Done?
  {
  }

  /** In any run: main does its last things in order, each once. */
  function Place(a: Action): nat {
    match a
    case Signal => 1
    case CancelContext => 2
    case CloseExporter => 3
    case ShutServer => 4
    case _ => 0
  }

  function Reached(stage: Stage): nat {
    match stage
    case Booting => 0
    case Serving => 0
    case Stopping => 1
    case Draining => 2
    case Ended => 3
    case Down => 4
  }

  lemma {:induction false} PlaceIsReached(s: State, a: Action)
    requires Enabled(s, a) && InOrder(s.ctl)
    ensures Place(a) > 0 ==> Reached(s.ctl.stage) + 1 == Place(a) == Reached(Apply(s, a).ctl.stage)
    ensures Reached(s.ctl.stage) <= Reached(Apply(s, a).ctl.stage)
    ensures a.BeginReload? ==> Reached(s.ctl.stage) < 4
  {
  }

  /** In any run from the start main's signal, cancel, exporter Close and server Shutdown
      happen at most once and in this order, and no reload begins after the last. */
  lemma {:induction false} ShutdownInOrder(s: State, acts: seq<Action>, i: nat, j: nat)
    requires InOrder(s.ctl) && Runs(s, acts) && i < j < |acts| && Place(acts[i]) > 0
    ensures Place(acts[j]) == 0 || Place(acts[i]) < Place(acts[j])
    ensures acts[i].ShutServer? ==> !acts[j].BeginReload?
    decreases |acts|
  {
    PlaceIsReached(s, acts[0]);
    OrderStep(s, acts[0]);
    if i == 0 {
      NoStepBack(Apply(s, acts[0]), acts[1..], j - 1);
    } else {
      ShutdownInOrder(Apply(s, acts[0]), acts[1..], i - 1, j - 1);
    }
  }

  lemma {:induction false} NoStepBack(s: State, acts: seq<Action>, j: nat)
    requires InOrder(s.ctl) && Runs(s, acts) && j < |acts|
    ensures Place(acts[j]) == 0 || Reached(s.ctl.stage) < Place(acts[j])
    ensures Reached(s.ctl.stage) == 4 ==> !acts[j].BeginReload?
    decreases |acts|
  {
    PlaceIsReached(s, acts[0]);
    OrderStep(s, acts[0]);
    if j > 0 { NoStepBack(Apply(s, acts[0]), acts[1..], j - 1); }
  }
}
