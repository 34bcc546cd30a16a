/** The sequential code of the pipeline: its dispatch and drain loops. */
module Pumping {
  import opened Daemon
  import Delivery

  /** How many of the first `calls` Export calls of exporter `j` fail. */
  function FailuresOf(fails: (nat, nat) -> bool, j: nat, calls: nat): nat {
    Delivery.Failures(seq(calls, k requires 0 <= k => fails(j, k)))
  }

  lemma OneMoreCall(fails: (nat, nat) -> bool, j: nat, calls: nat)
    ensures FailuresOf(fails, j, calls + 1) == FailuresOf(fails, j, calls) + if fails(j, calls) then 1 else 0
  {
    var all := seq(calls + 1, k requires 0 <= k => fails(j, k));
    assert all[..calls] == seq(calls, k requires 0 <= k => fails(j, k));
  }

  /** The pipeline object.  `fails(j, k)` says whether the k-th Export call of exporter `j` fails. */
  class Pipeline {
    const exporters: nat
    const fails: (nat, nat) -> bool
    var results: seq<Result>
    var closed: bool
    var logs: seq<seq<Result>>
    var errors: seq<nat>

    ghost predicate Valid()
      reads this
    {
      && |logs| == |errors| == exporters
      && forall j :: 0 <= j < exporters ==> errors[j] == FailuresOf(fails, j, |logs[j]|)
    }

    constructor (exporters: nat, fails: (nat, nat) -> bool)
      ensures Valid() && this.exporters == exporters && this.fails == fails
      ensures results == [] && !closed && forall j :: 0 <= j < exporters ==> logs[j] == []
    {
      this.exporters, this.fails := exporters, fails;
      results, closed := [], false;
      logs, errors := Repeat(exporters, []), Repeat(exporters, 0);
    }

    /** One result goes to every exporter, whichever of them fail. */
    method Dispatch(r: Result)
      requires Valid()
      modifies `logs, `errors
      ensures Valid()
      ensures forall j :: 0 <= j < exporters ==> logs[j] == old(logs)[j] + [r]
    {
      for k := 0 to exporters
        invariant Valid()
        invariant forall j :: 0 <= j < k ==> logs[j] == old(logs)[j] + [r]
        invariant forall j :: k <= j < exporters ==> logs[j] == old(logs)[j]
      {
        OneMoreCall(fails, k, |logs[k]|);
        if fails(k, |logs[k]|) {
          errors := errors[k := errors[k] + 1];
        }
        logs := logs[k := logs[k] + [r]];
      }
    }

    /** The drain loop: the whole buffer reaches every exporter in order, then the channel closes. */
    method DrainAndClose()
      requires Valid()
      modifies this
      ensures Valid() && results == [] && closed
      ensures forall j :: 0 <= j < exporters ==> logs[j] == old(logs)[j] + old(results)
    {
      while results != []
        invariant Valid()
        invariant forall j :: 0 <= j < exporters ==> logs[j] + results == old(logs)[j] + old(results)
        decreases |results|
      {
        ghost var seen, waiting := logs, results;
        var r := results[0];
        results := results[1..];
        Dispatch(r);
        forall j | 0 <= j < exporters ensures logs[j] + results == old(logs)[j] + old(results) {
          HandOver(seen[j], waiting);
        }
      }
      closed := true;
    }
  }

  /** The Export calls of one dispatch, from exporter `k` on; `fails` says which of them fail. */
  function Exports(fails: nat -> bool, k: nat, n: nat): seq<Action>
    requires k <= n
    decreases n - k
  {
    if k == n then [] else [Export(fails(k))] + Exports(fails, k + 1, n)
  }

  /** What Dispatch does as a whole is what its calls add up to in the step system. */
  lemma {:induction false} DispatchIsItsSteps(s: State, fails: nat -> bool)
    requires !s.panicked && s.pipe.pump.Dispatch? && s.pipe.pump.next <= s.exporters
    requires |s.pipe.logs| == |s.pipe.outcomes| == |s.pipe.errors| == s.exporters
    ensures var acts := Exports(fails, s.pipe.pump.next, s.exporters);
            && Runs(s, acts)
            && var s' := After(s, acts);
               && s' == s.(pipe := s.pipe.(pump := s.pipe.pump.(next := s.exporters),
                                           logs := s'.pipe.logs,
                                           outcomes := s'.pipe.outcomes, errors := s'.pipe.errors))
               && |s'.pipe.logs| == |s'.pipe.outcomes| == |s'.pipe.errors| == s.exporters
               && forall j :: 0 <= j < s.exporters ==>
                    var called := j >= s.pipe.pump.next;
                    && s'.pipe.logs[j] == (if called then s.pipe.logs[j] + [s.pipe.pump.item] else s.pipe.logs[j])
                    && s'.pipe.errors[j] == s.pipe.errors[j] + if called && fails(j) then 1 else 0
    decreases s.exporters - s.pipe.pump.next
  {
    var k := s.pipe.pump.next;
    if k < s.exporters {
      var acts := Exports(fails, k, s.exporters);
      DispatchIsItsSteps(Apply(s, Export(fails(k))), fails);
      assert acts[1..] == Exports(fails, k + 1, s.exporters);
    }
  }

  /** Every exporter's error count is that of its calls so far. */
  ghost predicate Counts(s: State, fails: (nat, nat) -> bool) {
    && Delivery.LogsFit(s)
    && forall j :: 0 <= j < s.exporters ==> s.pipe.errors[j] == FailuresOf(fails, j, |s.pipe.logs[j]|)
  }

  function Calls(logs: seq<seq<Result>>): (n: seq<nat>)
    ensures |n| == |logs| && forall j :: 0 <= j < |logs| ==> n[j] == |logs[j]|
  {
    seq(|logs|, j requires 0 <= j < |logs| => |logs[j]|)
  }

  function OneMoreEach(calls: seq<nat>): (n: seq<nat>)
    ensures |n| == |calls| && forall j :: 0 <= j < |calls| ==> n[j] == calls[j] + 1
  {
    seq(|calls|, j requires 0 <= j < |calls| => calls[j] + 1)
  }

  function FailsNow(fails: (nat, nat) -> bool, calls: seq<nat>): nat -> bool {
    (j: nat) => j < |calls| && fails(j, calls[j])
  }

  /** One turn of the drain loop, and all of it for `n` buffered results. */
  function Turn(fails: (nat, nat) -> bool, calls: seq<nat>): seq<Action> {
    [Take] + (Exports(FailsNow(fails, calls), 0, |calls|) + [Dispatched])
  }

  function DrainSteps(fails: (nat, nat) -> bool, calls: seq<nat>, n: nat): seq<Action>
    decreases n
  {
    if n == 0 then [CloseChannel] else Turn(fails, calls) + DrainSteps(fails, OneMoreEach(calls), n - 1)
  }

  /** Between `s` and `s'` the pump has taken `moved` off the buffer and handed it to every
      exporter, in order, and nothing outside the pipeline has changed. */
  ghost predicate Pumped(s: State, s': State, pump: Pump, closed: bool, moved: seq<Result>) {
    var p, p' := s.pipe, s'.pipe;
    && s' == s.(pipe := p')
    && p' == p.(pump := pump, closed := closed, buf := p'.buf, taken := p.taken + moved,
                logs := p'.logs, outcomes := p'.outcomes, errors := p'.errors)
    && p.buf == moved + p'.buf
    && Delivery.LogsFit(s) && Delivery.LogsFit(s')
    && forall j :: 0 <= j < s.exporters ==> p'.logs[j] == p.logs[j] + moved
  }

  lemma {:induction false} PumpedOn(
      s: State, s': State, s'': State, a: seq<Result>, b: seq<Result>, pump: Pump, closed: bool)
    requires Pumped(s, s', s.pipe.pump, s.pipe.closed, a) && Pumped(s', s'', pump, closed, b)
    ensures Pumped(s, s'', pump, closed, a + b)
  {
    var p, p'' := s.pipe, s''.pipe;
    assert p.taken + (a + b) == (p.taken + a) + b && p.buf == (a + b) + p''.buf;
    forall j | 0 <= j < s.exporters ensures p''.logs[j] == p.logs[j] + (a + b) {
      assert p.logs[j] + (a + b) == (p.logs[j] + a) + b;
    }
  }

  lemma {:induction false} TurnRuns(s: State, exports: seq<Action>)
    requires Enabled(s, Take) && Runs(Apply(s, Take), exports)
    requires Enabled(After(Apply(s, Take), exports), Dispatched)
    ensures Runs(s, [Take] + (exports + [Dispatched]))
    ensures After(s, [Take] + (exports + [Dispatched])) == Apply(After(Apply(s, Take), exports), Dispatched)
  {
    var s1 := Apply(s, Take);
    RunsCons(After(s1, exports), Dispatched, []);
    assert [Dispatched] + [] == [Dispatched];
    RunsConcat(s1, exports, [Dispatched]);
    RunsCons(s, Take, exports + [Dispatched]);
  }

  lemma {:induction false} TurnIsItsSteps(s: State, fails: (nat, nat) -> bool)
    requires !s.panicked && s.pipe.pump.Drain? && s.pipe.buf != [] && Counts(s, fails)
    ensures var acts := Turn(fails, Calls(s.pipe.logs));
            && Runs(s, acts) && Counts(After(s, acts), fails)
            && Pumped(s, After(s, acts), Drain, s.pipe.closed, [s.pipe.buf[0]])
  {
    var f, s1 := FailsNow(fails, Calls(s.pipe.logs)), Apply(s, Take);
    var exports := Exports(f, 0, s.exporters);
    DispatchIsItsSteps(s1, f);
    var s2 := After(s1, exports);
    forall j | 0 <= j < s.exporters
      ensures s2.pipe.errors[j] == FailuresOf(fails, j, |s2.pipe.logs[j]|)
    {
      OneMoreCall(fails, j, |s.pipe.logs[j]|);
    }
    TurnRuns(s, exports);
  }

  /** DrainAndClose as a whole is what its steps add up to in the step system: the buffer
      goes to every exporter in order, error counts go with the failing calls, the channel
      is closed. */
  lemma {:induction false} DrainIsItsSteps(s: State, fails: (nat, nat) -> bool)
    requires !s.panicked && s.pipe.pump.Drain? && Counts(s, fails)
    ensures var acts := DrainSteps(fails, Calls(s.pipe.logs), |s.pipe.buf|);
            && Runs(s, acts) && Counts(After(s, acts), fails)
            && Pumped(s, After(s, acts), Done, true, s.pipe.buf)
    decreases |s.pipe.buf|
  {
    var calls, buf := Calls(s.pipe.logs), s.pipe.buf;
    if buf == [] {
      RunsCons(s, CloseChannel, []);
      assert [CloseChannel] + [] == [CloseChannel];
    } else {
      TurnIsItsSteps(s, fails);
      var s' := After(s, Turn(fails, calls));
      assert Calls(s'.pipe.logs) == OneMoreEach(calls);
      DrainIsItsSteps(s', fails);
      var rest := DrainSteps(fails, OneMoreEach(calls), |buf| - 1);
      RunsConcat(s, Turn(fails, calls), rest);
      PumpedOn(s, s', After(s', rest), [buf[0]], s'.pipe.buf, Done, true);
    }
  }

  lemma HandOver(seen: seq<Result>, waiting: seq<Result>)
    requires waiting != []
    ensures (seen + [waiting[0]]) + waiting[1..] == seen + waiting
  {
  }
}
