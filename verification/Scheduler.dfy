/** The sequential code of the scheduler: the loops of Start and Stop. */
module Scheduling {
  import opened Types
  import opened Daemon
  import Ownership

  /** Start, as a whole: `Launch` for every probe in turn. */
  function LaunchAll(sched: Sched, cfgs: seq<Probe>): Sched
    decreases |cfgs|
  {
    if cfgs == [] then sched else LaunchAll(Launch(sched, cfgs[0]), cfgs[1..])
  }

  lemma {:induction false} LaunchAllSnoc(sched: Sched, cfgs: seq<Probe>, p: Probe)
    ensures LaunchAll(sched, cfgs + [p]) == Launch(LaunchAll(sched, cfgs), p)
    decreases |cfgs|
  {
    if cfgs == [] {
      assert (cfgs + [p])[1..] == [];
    } else {
      assert (cfgs + [p])[1..] == cfgs[1..] + [p];
      LaunchAllSnoc(Launch(sched, cfgs[0]), cfgs[1..], p);
    }
  }

  /** Every probe has its own fresh worker, in order, and nothing else has changed. */
  ghost predicate EachHasWorker(sched: Sched, cfgs: seq<Probe>, after: Sched) {
    && after.table.Keys == Names(cfgs)
    && |after.pool| == |sched.pool| + |cfgs|
    && after.pool[..|sched.pool|] == sched.pool
    && (forall k :: 0 <= k < |cfgs| ==>
          && after.pool[|sched.pool| + k] == Worker(cfgs[k].name, false, Waiting)
          && cfgs[k].name in after.table
          && after.table[cfgs[k].name] == |sched.pool| + k)
  }

  lemma {:induction false} OneMoreWorker(sched: Sched, front: seq<Probe>, p: Probe, mid: Sched)
    requires EachHasWorker(sched, front, mid) && p.name !in Names(front) && FactoryBuilds(p.kind)
    ensures EachHasWorker(sched, front + [p], Launch(mid, p))
  {
    assert Names(front + [p]) == Names(front) + {p.name};
    assert forall k :: 0 <= k < |front| ==> front[k].name in Names(front);
  }

  /** Started on an empty table with an accepted configuration, Start gives every probe
      its own fresh worker, in order, and nothing else. */
  lemma {:induction false} StartGivesEachProbeAWorker(sched: Sched, cfgs: seq<Probe>)
    requires sched.table == map[] && Accepted(cfgs)
    ensures EachHasWorker(sched, cfgs, LaunchAll(sched, cfgs))
    decreases |cfgs|
  {
    if cfgs != [] {
      var n := |cfgs| - 1;
      var front := cfgs[..n];
      assert cfgs == front + [cfgs[n]];
      StartGivesEachProbeAWorker(sched, front);
      LaunchAllSnoc(sched, front, cfgs[n]);
      OneMoreWorker(sched, front, cfgs[n], LaunchAll(sched, front));
    }
  }

  /** Probes of a kind that the factory does not know start nothing. */
  lemma {:induction false} UnknownKindsStartNothing(sched: Sched, cfgs: seq<Probe>)
    requires forall p :: p in cfgs ==> p.kind.Other?
    ensures LaunchAll(sched, cfgs) == sched
    decreases |cfgs|
  {
    if cfgs != [] {
      assert cfgs[0] in cfgs;
      UnknownKindsStartNothing(sched, cfgs[1..]);
    }
  }

  /** The whole critical section of Start is what its steps add up to in the step system. */
  lemma {:induction false} StartIsItsSteps(s: State, t: Thread)
    requires !s.panicked && s.ctl.Get(t).Launching?
    ensures var n := |s.ctl.Get(t).todo|;
            && Runs(s, Repeat(n, LaunchOne(t)))
            && After(s, Repeat(n, LaunchOne(t))) ==
               s.(sched := LaunchAll(s.sched, s.ctl.Get(t).todo), ctl := s.ctl.Set(t, Launching([])))
    decreases |s.ctl.Get(t).todo|
  {
    var todo := s.ctl.Get(t).todo;
    var acts := Repeat(|todo|, LaunchOne(t));
    if todo != [] {
      StartIsItsSteps(Apply(s, LaunchOne(t)), t);
      assert acts[1..] == Repeat(|todo| - 1, LaunchOne(t));
    }
  }

  /** The pool with exactly the workers `ids` cancelled. */
  function CancelAll(pool: seq<Worker>, ids: set<nat>): (after: seq<Worker>)
    ensures |after| == |pool|
    ensures forall i :: 0 <= i < |pool| ==>
              after[i] == if i in ids then pool[i].(cancelled := true) else pool[i]
  {
    seq(|pool|, i requires 0 <= i < |pool| => if i in ids then pool[i].(cancelled := true) else pool[i])
  }

  function Cancels(t: Thread, order: seq<nat>): seq<Action> {
    if order == [] then [] else [CancelOne(t, order[0])] + Cancels(t, order[1..])
  }

  ghost predicate Enumerates(order: seq<nat>, ids: set<nat>) {
    && (forall i :: i in order <==> i in ids)
    && (forall i, j :: 0 <= i < j < |order| ==> order[i] != order[j])
  }

  /** The cancels of Stop, in any order, add up to cancelling the whole snapshot. */
  lemma {:induction false} CancelsAreTheirSteps(s: State, t: Thread, order: seq<nat>)
    requires !s.panicked && s.ctl.Get(t).Cancelling? && Enumerates(order, s.ctl.Get(t).left)
    requires forall i :: i in order ==> i < |s.sched.pool|
    ensures Runs(s, Cancels(t, order))
    ensures After(s, Cancels(t, order)) ==
            s.(sched := s.sched.(pool := CancelAll(s.sched.pool, s.ctl.Get(t).left)),
               ctl := s.ctl.Set(t, Cancelling(s.ctl.Get(t).snap, {})))
    decreases |order|
  {
    var left, snap, pool := s.ctl.Get(t).left, s.ctl.Get(t).snap, s.sched.pool;
    if order == [] {
      assert left == {};
      assert CancelAll(pool, {}) == pool;
    } else {
      assert order == [order[0]] + order[1..] && order[0] in order;
      var s' := Apply(s, CancelOne(t, order[0]));
      assert Enumerates(order[1..], left - {order[0]});
      CancelsAreTheirSteps(s', t, order[1..]);
      assert CancelAll(s'.sched.pool, left - {order[0]}) == CancelAll(pool, left);
      RunsCons(s, CancelOne(t, order[0]), Cancels(t, order[1..]));
    }
  }

  /** BeginStop as a whole is what its steps add up to in the step system: the snapshot, the
      cancels in any order of the map, and the turn to the waits. */
  lemma {:induction false} StopIsItsSteps(s: State, t: Thread, order: seq<nat>)
    requires !s.panicked && s.ctl.Get(t).AtSnapshot? && s.sched.lock.Free?
    requires forall n :: n in s.sched.table ==> s.sched.table[n] < |s.sched.pool|
    requires Enumerates(order, s.sched.table.Values)
    ensures var acts := [Snapshot(t)] + (Cancels(t, order) + [AllCancelled(t)]);
            var ids := s.sched.table.Values;
            && Runs(s, acts)
            && After(s, acts) == s.(sched := Sched(Free, map[], CancelAll(s.sched.pool, ids)),
                                    ctl := s.ctl.Set(t, Awaiting(ids, ids)))
  {
    var s1 := Apply(s, Snapshot(t));
    CancelsAreTheirSteps(s1, t, order);
    var s2 := After(s1, Cancels(t, order));
    RunsCons(s2, AllCancelled(t), []);
    assert [AllCancelled(t)] + [] == [AllCancelled(t)];
    RunsConcat(s1, Cancels(t, order), [AllCancelled(t)]);
    RunsCons(s, Snapshot(t), Cancels(t, order) + [AllCancelled(t)]);
  }

  /** The scheduler object; a worker is named by its position in `pool`. */
  class Scheduler {
    var workers: map<string, nat>
    var pool: seq<Worker>

    constructor ()
      ensures workers == map[] && pool == []
    {
      workers, pool := map[], [];
    }

    method StartLocked(cfg: Probe)
      modifies this
      ensures Sched(Free, workers, pool) == Launch(Sched(Free, old(workers), old(pool)), cfg)
    {
      if FactoryBuilds(cfg.kind) {
        workers := workers[cfg.name := |pool|];
        pool := pool + [Worker(cfg.name, false, Waiting)];
      }
    }

    method Start(cfgs: seq<Probe>)
      modifies this
      ensures Sched(Free, workers, pool) == LaunchAll(Sched(Free, old(workers), old(pool)), cfgs)
    {
      for i := 0 to |cfgs|
        invariant Sched(Free, workers, pool) == LaunchAll(Sched(Free, old(workers), old(pool)), cfgs[..i])
      {
        assert cfgs[..i + 1] == cfgs[..i] + [cfgs[i]];
        LaunchAllSnoc(Sched(Free, old(workers), old(pool)), cfgs[..i], cfgs[i]);
        StartLocked(cfgs[i]);
      }
      assert cfgs[..|cfgs|] == cfgs;
    }

    /** Stop up to its waits: empty the table into a snapshot, then cancel exactly the
        workers of the snapshot.  The caller waits for the returned workers. */
    method BeginStop() returns (dones: set<nat>)
      requires forall n :: n in workers ==> workers[n] < |pool|
      modifies this
      ensures workers == map[] && dones == old(workers).Values && pool == CancelAll(old(pool), dones)
    {
      var cancels := {};
      dones := {};
      while workers != map[]
        invariant forall n :: n in workers ==> n in old(workers) && workers[n] == old(workers)[n]
        invariant forall n :: n in old(workers) ==> n in workers || old(workers)[n] in dones
        invariant cancels == dones <= old(workers).Values
        invariant pool == old(pool)
        decreases |workers|
      {
        var name :| name in workers;
        cancels := cancels + {workers[name]};
        dones := dones + {workers[name]};
        assert (workers - {name}).Keys == workers.Keys - {name};
        workers := workers - {name};
      }
      assert dones == old(workers).Values;
      while cancels != {}
        invariant cancels <= dones && workers == map[] && |pool| == old(|pool|)
        invariant forall i :: i in dones ==> i < |pool|
        invariant forall i :: 0 <= i < |pool| ==>
                    pool[i] == if i in dones && i !in cancels then old(pool)[i].(cancelled := true) else old(pool)[i]
        decreases cancels
      {
        var id :| id in cancels;
        pool := pool[id := pool[id].(cancelled := true)];
        cancels := cancels - {id};
      }
    }

    /** The number of running goroutines but those a Stop is waiting for: see
        Ownership.TableCountsLiveWorkers. */
    method WorkerCount(ghost ctl: Control) returns (n: nat)
      requires Ownership.OwnershipInv(Sched(Free, workers, pool), ctl)
      ensures n + |Ownership.HeldLive(Sched(Free, workers, pool), ctl)| == |Ownership.LiveIds(pool)|
    {
      n := |workers|;
      Ownership.TableCountsLiveWorkers(Sched(Free, workers, pool), ctl);
    }
  }
}
