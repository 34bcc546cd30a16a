/** Target expansion and the parallel fan-out over the resulting work items. */
module Targets {
  import opened Types
  import opened Probing

  /** What the resolver says when asked for one entry. */
  datatype Lookup = LookupFailed | Addresses(addrs: seq<string>)

  // -------- Specification --------

  /** The distinct elements, in order of first occurrence. */
  function Dedup(s: seq<string>): seq<string> {
    if s == [] then []
    else
      var front, last := s[..|s| - 1], s[|s| - 1];
      Dedup(front) + if last in front then [] else [last]
  }

  function Capped(s: seq<string>, max: int): seq<string> {
    if 0 < max < |s| then s[..max] else s
  }

  function Items(addrs: seq<string>, fqdn: string): (items: seq<WorkItem>)
    ensures |items| == |addrs| && forall i :: 0 <= i < |addrs| ==> items[i] == WorkItem(addrs[i], fqdn)
  {
    seq(|addrs|, i requires 0 <= i < |addrs| => WorkItem(addrs[i], fqdn))
  }

  predicate Resolved(lookup: Lookup) { lookup.Addresses? && lookup.addrs != [] }

  /** The work items of one entry: itself if it is an address, a marked item if it does not
      resolve, else the first `max` of its distinct addresses. */
  function ItemsOf(isIP: bool, entry: string, lookup: Lookup, max: int): seq<WorkItem> {
    if isIP then [WorkItem(entry, "")]
    else if !Resolved(lookup) then [WorkItem(entry, entry)]
    else Items(Capped(Dedup(lookup.addrs), max), entry)
  }

  function Expansion(isIP: string -> bool, targets: seq<string>, lookups: seq<Lookup>, max: int): seq<WorkItem>
    requires |lookups| == |targets|
  {
    if targets == [] then []
    else
      var n := |targets| - 1;
      Expansion(isIP, targets[..n], lookups[..n], max) + ItemsOf(isIP(targets[n]), targets[n], lookups[n], max)
  }

  // -------- Deduplication --------

  lemma {:induction false} DedupElements(s: seq<string>)
    ensures forall x :: x in Dedup(s) <==> x in s
    ensures forall i, j :: 0 <= i < j < |Dedup(s)| ==> Dedup(s)[i] != Dedup(s)[j]
  {
    if s != [] {
      DedupElements(s[..|s| - 1]);
    }
  }

  lemma {:induction false} DedupPrefix(s: seq<string>, k: nat)
    requires k <= |s|
    ensures Dedup(s[..k]) <= Dedup(s)
  {
    if k == |s| {
      assert s[..k] == s;
    } else {
      var front := s[..|s| - 1];
      assert front[..k] == s[..k];
      DedupPrefix(front, k);
    }
  }

  lemma {:induction false} DedupStep(s: seq<string>, k: nat)
    requires k < |s|
    ensures Dedup(s[..k + 1]) == Dedup(s[..k]) + if s[k] in s[..k] then [] else [s[k]]
  {
    assert s[..k + 1][..k] == s[..k];
  }

  lemma {:induction false} CapReached(s: seq<string>, k: nat, max: int)
    requires k <= |s| && 0 < max && |Dedup(s[..k])| == max
    ensures Capped(Dedup(s), max) == Dedup(s[..k])
  {
    DedupPrefix(s, k);
  }

  lemma ItemsSnoc(addrs: seq<string>, addr: string, fqdn: string)
    ensures Items(addrs + [addr], fqdn) == Items(addrs, fqdn) + [WorkItem(addr, fqdn)]
  {
  }

  // -------- The code --------

  /** The inner loop: appends an item per new address, up to the cap. */
  method AppendResolved(items: seq<WorkItem>, entry: string, addrs: seq<string>, max: int)
    returns (more: seq<WorkItem>)
    ensures more == items + Items(Capped(Dedup(addrs), max), entry)
  {
    more := items;
    var seen: set<string> := {};
    var k := 0;
    while k < |addrs|
      invariant 0 <= k <= |addrs|
      invariant more == items + Items(Dedup(addrs[..k]), entry)
      invariant forall x :: x in seen <==> x in addrs[..k]
      invariant |seen| == |Dedup(addrs[..k])|
      invariant max > 0 ==> |seen| < max
    {
      var addr := addrs[k];
      assert addrs[..k + 1] == addrs[..k] + [addr];
      DedupStep(addrs, k);
      if addr !in seen {
        seen := seen + {addr};
        more := more + [WorkItem(addr, entry)];
        ItemsSnoc(Dedup(addrs[..k]), addr, entry);
        if max > 0 && |seen| >= max {
          CapReached(addrs, k + 1, max);
          return;
        }
      }
      k := k + 1;
    }
    assert addrs[..k] == addrs;
  }

  method ExpandTargets(isIP: string -> bool, targets: seq<string>, lookups: seq<Lookup>, max: int)
    returns (items: seq<WorkItem>)
    requires |lookups| == |targets|
    ensures items == Expansion(isIP, targets, lookups, max)
  {
    items := [];
    for i := 0 to |targets|
      invariant items == Expansion(isIP, targets[..i], lookups[..i], max)
    {
      var entry := targets[i];
      assert targets[..i + 1][..i] == targets[..i] && lookups[..i + 1][..i] == lookups[..i];
      if isIP(entry) {
        items := items + [WorkItem(entry, "")];
      } else if lookups[i].LookupFailed? || |lookups[i].addrs| == 0 {
        items := items + [WorkItem(entry, entry)];
      } else {
        items := AppendResolved(items, entry, lookups[i].addrs, max);
      }
    }
    assert targets[..|targets|] == targets && lookups[..|targets|] == lookups;
  }

  /** Runs the probe of every item; `order` is the order in which the goroutines happen to
      write their results, each its own slot. */
  method RunWorkItems(
      isIP: string -> bool, targets: seq<string>, lookups: seq<Lookup>, max: int,
      count: int, outcomes: nat -> nat -> Outcome, done: nat -> nat -> bool, order: seq<nat>)
    returns (results: seq<Report>)
    requires |lookups| == |targets|
    requires forall i :: 0 <= i < |Expansion(isIP, targets, lookups, max)| <==> i in order
    requires forall i, j :: 0 <= i < j < |order| ==> order[i] != order[j]
    ensures var items := Expansion(isIP, targets, lookups, max);
            && |results| == |items|
            && forall i :: 0 <= i < |items| ==> PortReport(items[i], count, outcomes(i), done(i), results[i])
  {
    var items := ExpandTargets(isIP, targets, lookups, max);
    if |items| == 0 {
      return [];
    }
    var slots := new Report[|items|](_ => Blank(items[0]));
    for k := 0 to |order|
      invariant Written(items, count, outcomes, done, order[..k], slots[..])
    {
      var idx := order[k];
      assert idx in order;
      var r := ProbeOne(items[idx], count, outcomes(idx), done(idx));
      WrittenStep(items, count, outcomes, done, order, k, slots[..], r);
      slots[idx] := r;
    }
    assert order[..|order|] == order;
    results := slots[..];
  }

  /** Every slot in `ids` holds the report of its own work item. */
  ghost predicate Written(
      items: seq<WorkItem>, count: int, outcomes: nat -> nat -> Outcome, done: nat -> nat -> bool,
      ids: seq<nat>, slots: seq<Report>)
    requires |slots| == |items|
  {
    forall i :: 0 <= i < |items| && i in ids ==> PortReport(items[i], count, outcomes(i), done(i), slots[i])
  }

  lemma {:induction false} WrittenStep(
      items: seq<WorkItem>, count: int, outcomes: nat -> nat -> Outcome, done: nat -> nat -> bool,
      order: seq<nat>, k: nat, slots: seq<Report>, r: Report)
    requires k < |order| && order[k] < |items| == |slots|
    requires Written(items, count, outcomes, done, order[..k], slots)
    requires PortReport(items[order[k]], count, outcomes(order[k]), done(order[k]), r)
    ensures Written(items, count, outcomes, done, order[..k + 1], slots[order[k] := r])
  {
    assert order[..k + 1] == order[..k] + [order[k]];
  }

  // -------- Theorems --------

  /** Every target yields at least one work item. */
  lemma {:induction false} NoTargetIsDropped(
      isIP: string -> bool, targets: seq<string>, lookups: seq<Lookup>, max: int, k: nat)
    requires |lookups| == |targets| && k < |targets|
    ensures var items := ItemsOf(isIP(targets[k]), targets[k], lookups[k], max);
            && items != []
            && forall wi :: wi in items ==> wi in Expansion(isIP, targets, lookups, max)
  {
    var n := |targets| - 1;
    if k < n {
      assert targets[..n][k] == targets[k] && lookups[..n][k] == lookups[k];
      NoTargetIsDropped(isIP, targets[..n], lookups[..n], max, k);
    } else {
      SomeItem(isIP(targets[k]), targets[k], lookups[k], max);
    }
  }

  lemma {:induction false} SomeItem(isIP: bool, entry: string, lookup: Lookup, max: int)
    ensures ItemsOf(isIP, entry, lookup, max) != []
  {
    if !isIP && Resolved(lookup) {
      DedupElements(lookup.addrs);
      assert lookup.addrs[0] in Dedup(lookup.addrs);
    }
  }

  /** What the items of an entry hold: an address itself and no name; an unresolved name
      twice; a resolved name with the first `max` of its distinct addresses. */
  lemma {:induction false} ItemsByEntry(isIP: bool, entry: string, lookup: Lookup, max: int)
    ensures var items := ItemsOf(isIP, entry, lookup, max);
            && (isIP ==> |items| == 1 && items[0].ip == entry && items[0].fqdn == "")
            && (!isIP && (lookup.LookupFailed? || lookup.addrs == []) ==>
                  |items| == 1 && items[0].ip == entry && items[0].fqdn == entry)
            && (!isIP && lookup.Addresses? && lookup.addrs != [] ==>
                  && |items| == |Capped(Dedup(lookup.addrs), max)| && items != []
                  && items[0].ip == lookup.addrs[0]
                  && forall i :: 0 <= i < |items| ==>
                       items[i].fqdn == entry && items[i].ip == Capped(Dedup(lookup.addrs), max)[i])
  {
    if !isIP && Resolved(lookup) {
      DedupPrefix(lookup.addrs, 1);
      var one := lookup.addrs[..1];
      assert Dedup(one) == [lookup.addrs[0]] by { assert one[..0] == [] && one[0] == lookup.addrs[0]; }
    }
  }

  /** An entry's items are marked unresolved exactly if it is a non-empty name that did not
      resolve, or that the resolver gave back as one of its own addresses. */
  lemma {:induction false} MarkedIffUnresolved(isIP: bool, entry: string, lookup: Lookup, max: int, wi: WorkItem)
    requires wi in ItemsOf(isIP, entry, lookup, max)
    ensures wi.Unresolved() <==> entry != "" && !isIP && (!Resolved(lookup) || wi.ip == entry)
    ensures Resolved(lookup) && !isIP ==> wi.ip in lookup.addrs
  {
    if !isIP && Resolved(lookup) {
      DedupElements(lookup.addrs);
    }
  }

  /** With a cap, exactly the first `max` distinct addresses are probed, each once. */
  lemma {:induction false} CapTakesFirstDistinct(addrs: seq<string>, max: int)
    ensures var probed := Capped(Dedup(addrs), max);
            && probed <= Dedup(addrs)
            && (max > 0 ==> |probed| <= max)
            && (0 < max < |Dedup(addrs)| ==> |probed| == max)
            && (max <= 0 || |Dedup(addrs)| <= max ==> forall a :: a in addrs <==> a in probed)
            && forall i, j :: 0 <= i < j < |probed| ==> probed[i] != probed[j]
  {
    DedupElements(addrs);
  }
}
