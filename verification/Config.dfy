/** Merging the probe configuration directory into one validated probe set.  A source is
    given by what the YAML decoder makes of it; checks that ask the network, the local
    interfaces or one field alone are arbitrary inputs. */
module Config {
  import opened Types
  import opened Timings
  import Daemon

  datatype Global = Global(
    interval: Int64, packetInterval: Int64, timeout: Int64, count: Int64, sourceIP: string)

  const SECOND: Int64 := 1_000_000_000
  const DEFAULTS: Global := Global(30_000_000_000, SECOND, 5_000_000_000, 3, "")

  datatype RawProbe = RawProbe(
    name: string, kind: ProbeKind, targets: seq<string>, maxResolvedIPs: Int64, sourceIP: string,
    interval: Option<Int64>, packetInterval: Option<Int64>, timeout: Option<Int64>, count: Option<Int64>)

  datatype ProbeConfig = ProbeConfig(
    name: string, kind: ProbeKind, targets: seq<string>, maxResolvedIPs: Int64, sourceIP: string,
    interval: Int64, packetInterval: Int64, timeout: Int64, count: Int64)

  /** The answers of the environment and of the single-field validators. */
  datatype Checks = Checks(
    target: (ProbeKind, string) -> bool,
    usableSource: string -> bool,
    labels: RawProbe -> bool,
    protocol: RawProbe -> bool)

  datatype ProbeError =
    | NameMissing(index: nat) | NameNotUnique(name: string)
    | TypeMissing | TypeUnknown | BadTargets | BadMaxResolvedIPs | BadSourceIP
    | BadTimings(timing: TimingError) | BadLabels | BadProtocol

  datatype Merge<T> = Merged(value: T) | Refused(error: ProbeError)

  // -------- One probe --------

  function OrElse<T>(o: Option<T>, default: T): T { if o.Some? then o.value else default }

  function MergeTimings(r: RawProbe, g: Global): (Int64, Int64, Int64, Int64) {
    (OrElse(r.interval, g.interval), OrElse(r.packetInterval, g.packetInterval),
     OrElse(r.timeout, g.timeout), OrElse(r.count, g.count))
  }

  function SourceIP(r: RawProbe, g: Global): string {
    if r.sourceIP == "" then g.sourceIP else r.sourceIP
  }

  function Typed(r: RawProbe, g: Global): ProbeConfig {
    var (i, p, t, c) := MergeTimings(r, g);
    ProbeConfig(r.name, r.kind, r.targets, r.maxResolvedIPs, SourceIP(r, g), i, p, t, c)
  }

  /** mergeAndValidateProbe. */
  function MergeProbe(r: RawProbe, g: Global, env: Checks): Merge<ProbeConfig> {
    if r.kind == Other("") then Refused(TypeMissing)
    else if r.kind.Other? then Refused(TypeUnknown)
    else if r.targets == [] || !(forall t :: t in r.targets ==> env.target(r.kind, t)) then Refused(BadTargets)
    else if r.maxResolvedIPs < 0 then Refused(BadMaxResolvedIPs)
    else if SourceIP(r, g) != "" && !env.usableSource(SourceIP(r, g)) then Refused(BadSourceIP)
    else
      var (i, p, t, c) := MergeTimings(r, g);
      var timing := if r.kind.HTTP? then None else ValidateTimings(i, p, t, c);
      if timing.Some? then Refused(BadTimings(timing.value))
      else if !env.labels(r) then Refused(BadLabels)
      else if !env.protocol(r) then Refused(BadProtocol)
      else Merged(Typed(r, g))
  }

  predicate GlobalOk(g: Global) {
    ValidateTimings(g.interval, g.packetInterval, g.timeout, g.count).None?
  }

  /** An accepted probe has a kind the factory builds.  Its ticker period is positive exactly
      if it is not an HTTP probe, or inherits probe_every, or overrides it with a positive
      one: an HTTP probe's own timings are not validated. */
  lemma {:induction false} AcceptedProbe(r: RawProbe, g: Global, env: Checks)
    ensures GlobalOk(g) && MergeProbe(r, g, env).Merged? ==>
            var pc := MergeProbe(r, g, env).value;
            && pc.name == r.name && FactoryBuilds(pc.kind)
            && (pc.interval > 0 <==> !pc.kind.HTTP? || r.interval.None? || r.interval.value > 0)
            && (!pc.kind.HTTP? ==>
                  (FitsBudget(pc.interval, pc.packetInterval, pc.timeout, pc.count) <==>
                   ExactProduct(pc.packetInterval, pc.count) < TWO_63))
  {
    var pc := Typed(r, g);
    if MergeProbe(r, g, env).Merged? && !pc.kind.HTTP? {
      BudgetIffNoWrap(pc.interval, pc.packetInterval, pc.timeout, pc.count);
    }
  }

  /** Exactly which probes are accepted, apart from the single-field checks. */
  lemma {:induction false} AcceptedIff(r: RawProbe, g: Global, env: Checks)
    ensures var ip := if r.sourceIP != "" then r.sourceIP else g.sourceIP;
            MergeProbe(r, g, env).Merged? <==>
              && !r.kind.Other?
              && |r.targets| > 0 && (forall i :: 0 <= i < |r.targets| ==> env.target(r.kind, r.targets[i]))
              && r.maxResolvedIPs >= 0
              && (ip == "" || env.usableSource(ip))
              && (r.kind.HTTP? ||
                  ValidateTimings(if r.interval.Some? then r.interval.value else g.interval,
                                  if r.packetInterval.Some? then r.packetInterval.value else g.packetInterval,
                                  if r.timeout.Some? then r.timeout.value else g.timeout,
                                  if r.count.Some? then r.count.value else g.count).None?)
              && env.labels(r) && env.protocol(r)
  {
    assert forall t :: t in r.targets ==> exists i :: 0 <= i < |r.targets| && r.targets[i] == t;
  }

  /** What an accepted probe is made of, field by field. */
  lemma {:induction false} MergedFields(r: RawProbe, g: Global, env: Checks)
    ensures MergeProbe(r, g, env).Merged? ==>
            var pc := MergeProbe(r, g, env).value;
            && pc.name == r.name && pc.kind == r.kind
            && pc.targets == r.targets && pc.maxResolvedIPs == r.maxResolvedIPs
            && (r.sourceIP != "" ==> pc.sourceIP == r.sourceIP)
            && (r.sourceIP == "" ==> pc.sourceIP == g.sourceIP)
            && pc.interval == (if r.interval.Some? then r.interval.value else g.interval)
            && pc.packetInterval == (if r.packetInterval.Some? then r.packetInterval.value else g.packetInterval)
            && pc.timeout == (if r.timeout.Some? then r.timeout.value else g.timeout)
            && pc.count == (if r.count.Some? then r.count.value else g.count)
  {
  }

  /** What a refusal says is true of the probe. */
  lemma {:induction false} RefusalIsTrue(r: RawProbe, g: Global, env: Checks)
    ensures MergeProbe(r, g, env).Refused? ==>
            match MergeProbe(r, g, env).error
            case NameMissing(_) => false
            case NameNotUnique(_) => false
            case TypeMissing => r.kind == Other("")
            case TypeUnknown => r.kind.Other? && r.kind.text != ""
            case BadTargets => r.targets == [] || exists t :: t in r.targets && !env.target(r.kind, t)
            case BadMaxResolvedIPs => r.maxResolvedIPs < 0
            case BadSourceIP => (r.sourceIP != "" && !env.usableSource(r.sourceIP))
                                || (r.sourceIP == "" && g.sourceIP != "" && !env.usableSource(g.sourceIP))
            case BadTimings(t) => !r.kind.HTTP? &&
              ValidateTimings(OrElse(r.interval, g.interval), OrElse(r.packetInterval, g.packetInterval),
                              OrElse(r.timeout, g.timeout), OrElse(r.count, g.count)) == Some(t)
            case BadLabels => !env.labels(r)
            case BadProtocol => !env.protocol(r)
  {
  }

  /** The probe with everything it was merged to written out as its own override. */
  function Explicit(r: RawProbe, pc: ProbeConfig): RawProbe {
    r.(sourceIP := pc.sourceIP, interval := Some(pc.interval), packetInterval := Some(pc.packetInterval),
       timeout := Some(pc.timeout), count := Some(pc.count))
  }

  /** Overrides win and nothing else is lost: an accepted probe with its merged values written
      out merges to the same probe under any other globals, unless those would give a
      source address to a probe that has none. */
  lemma {:induction false} MergeIsStable(r: RawProbe, g: Global, g': Global, env: Checks)
    ensures var m := MergeProbe(r, g, env);
            m.Merged? ==>
              var again := Explicit(r, m.value);
              env.labels(again) && env.protocol(again) && (m.value.sourceIP != "" || g'.sourceIP == "") ==>
                MergeProbe(again, g', env) == m
  {
    if MergeProbe(r, g, env).Merged? {
      var pc := Typed(r, g);
      var again := Explicit(r, pc);
      assert MergeTimings(again, g') == MergeTimings(r, g);
      assert Typed(again, g') == pc || (pc.sourceIP == "" && g'.sourceIP != "");
    }
  }

  // -------- One file --------

  ghost predicate Distinct(raws: seq<RawProbe>) {
    forall i, j :: 0 <= i < j < |raws| ==> raws[i].name != raws[j].name
  }

  ghost predicate EachOk(raws: seq<RawProbe>, g: Global, env: Checks) {
    forall i :: 0 <= i < |raws| ==> Fine(raws[i], g, env)
  }

  ghost predicate Fine(r: RawProbe, g: Global, env: Checks) {
    r.name != "" && MergeProbe(r, g, env).Merged?
  }

  function TypedAll(raws: seq<RawProbe>, g: Global): (pcs: seq<ProbeConfig>)
    ensures |pcs| == |raws| && forall i :: 0 <= i < |raws| ==> pcs[i] == Typed(raws[i], g)
  {
    seq(|raws|, i requires 0 <= i < |raws| => Typed(raws[i], g))
  }

  /** The error names a probe without name, a name used twice, or the fault of one probe. */
  ghost predicate WhyRefused(e: ProbeError, raws: seq<RawProbe>, g: Global, env: Checks) {
    match e
    case NameMissing(i) => i < |raws| && raws[i].name == ""
    case NameNotUnique(n) => exists i, j :: 0 <= i < j < |raws| && raws[i].name == raws[j].name == n
    case _ => exists i :: 0 <= i < |raws| && MergeProbe(raws[i], g, env) == Refused(e)
  }

  function NamesOf(raws: seq<RawProbe>): set<string> { set r | r in raws :: r.name }

  ghost predicate AllOk(raws: seq<RawProbe>, g: Global, env: Checks) {
    EachOk(raws, g, env) && Distinct(raws)
  }

  lemma {:induction false} DistinctConcat(a: seq<RawProbe>, b: seq<RawProbe>)
    ensures Distinct(a + b) <==> Distinct(a) && Distinct(b) && NamesOf(a) !! NamesOf(b)
  {
    var c := a + b;
    if Distinct(c) {
      assert forall i :: 0 <= i < |a| ==> c[i] == a[i];
      forall i, j | 0 <= i < j < |b| ensures b[i].name != b[j].name {
        assert c[|a| + i].name != c[|a| + j].name;
      }
      forall x | x in NamesOf(a) ensures x !in NamesOf(b) {
        var i :| 0 <= i < |a| && a[i].name == x;
        forall j | 0 <= j < |b| ensures b[j].name != x { assert c[|a| + j] == b[j]; }
      }
    } else {
      var i, j :| 0 <= i < j < |c| && c[i].name == c[j].name;
      if i < |a| <= j { assert a[i].name in NamesOf(a) && b[j - |a|].name in NamesOf(b); }
    }
  }

  lemma {:induction false} EachOkConcat(a: seq<RawProbe>, b: seq<RawProbe>, g: Global, env: Checks)
    ensures EachOk(a + b, g, env) <==> EachOk(a, g, env) && EachOk(b, g, env)
  {
    var c := a + b;
    if EachOk(c, g, env) {
      forall i | 0 <= i < |a| ensures Fine(a[i], g, env) { assert Fine(c[i], g, env); }
      forall i | 0 <= i < |b| ensures Fine(b[i], g, env) { assert Fine(c[|a| + i], g, env); }
    } else {
      var i :| 0 <= i < |c| && !Fine(c[i], g, env);
      assert if i < |a| then !Fine(a[i], g, env) else !Fine(b[i - |a|], g, env);
    }
  }

  /** Two lists are fine together iff each is fine and they share no name. */
  lemma {:induction false} AllOkConcat(a: seq<RawProbe>, b: seq<RawProbe>, g: Global, env: Checks)
    ensures AllOk(a + b, g, env) <==> AllOk(a, g, env) && AllOk(b, g, env) && NamesOf(a) !! NamesOf(b)
    ensures NamesOf(a + b) == NamesOf(a) + NamesOf(b)
    ensures TypedAll(a + b, g) == TypedAll(a, g) + TypedAll(b, g)
  {
    DistinctConcat(a, b);
    EachOkConcat(a, b, g, env);
  }

  lemma {:induction false} StaysBad(raws: seq<RawProbe>, k: nat, g: Global, env: Checks)
    requires k <= |raws| && !AllOk(raws[..k], g, env)
    ensures !AllOk(raws, g, env)
  {
    assert raws == raws[..k] + raws[k..];
    AllOkConcat(raws[..k], raws[k..], g, env);
  }

  lemma {:induction false} AllOkSnoc(raws: seq<RawProbe>, i: nat, g: Global, env: Checks)
    requires i < |raws| && AllOk(raws[..i], g, env)
    ensures var r := raws[i];
            && (AllOk(raws[..i + 1], g, env) <==> Fine(r, g, env) && r.name !in NamesOf(raws[..i]))
            && NamesOf(raws[..i + 1]) == NamesOf(raws[..i]) + {r.name}
            && TypedAll(raws[..i + 1], g) == TypedAll(raws[..i], g) + [Typed(r, g)]
  {
    var r := raws[i];
    assert raws[..i + 1] == raws[..i] + [r];
    AllOkConcat(raws[..i], [r], g, env);
    assert NamesOf([r]) == {r.name} && [r][0] == r;
  }

  /** A fault of probe `i` refuses the list, and its error says why. */
  lemma {:induction false} RefusedAt(raws: seq<RawProbe>, i: nat, e: ProbeError, g: Global, env: Checks)
    requires i < |raws| && AllOk(raws[..i], g, env)
    requires || (e == NameMissing(i) && raws[i].name == "")
             || (e == NameNotUnique(raws[i].name) && raws[i].name in NamesOf(raws[..i]))
             || MergeProbe(raws[i], g, env) == Refused(e)
    ensures !AllOk(raws, g, env) && WhyRefused(e, raws, g, env)
  {
    AllOkSnoc(raws, i, g, env);
    StaysBad(raws, i + 1, g, env);
    if e.NameNotUnique? {
      var k :| 0 <= k < i && raws[k].name == raws[i].name;
    }
  }

  method MergeAndValidateProbes(raws: seq<RawProbe>, g: Global, env: Checks) returns (r: Merge<seq<ProbeConfig>>)
    ensures r.Merged? <==> AllOk(raws, g, env)
    ensures r.Merged? ==> r.value == TypedAll(raws, g)
    ensures r.Refused? ==> WhyRefused(r.error, raws, g, env)
  {
    var seen: set<string> := {};
    var out: seq<ProbeConfig> := [];
    for i := 0 to |raws|
      invariant AllOk(raws[..i], g, env) && seen == NamesOf(raws[..i])
      invariant out == TypedAll(raws[..i], g)
    {
      if raws[i].name == "" {
        RefusedAt(raws, i, NameMissing(i), g, env);
        return Refused(NameMissing(i));
      }
      if raws[i].name in seen {
        RefusedAt(raws, i, NameNotUnique(raws[i].name), g, env);
        return Refused(NameNotUnique(raws[i].name));
      }
      seen := seen + {raws[i].name};
      var pc := MergeProbe(raws[i], g, env);
      if pc.Refused? {
        RefusedAt(raws, i, pc.error, g, env);
        return Refused(pc.error);
      }
      out := out + [pc.value];
      AllOkSnoc(raws, i, g, env);
    }
    assert raws[..|raws|] == raws;
    return Merged(out);
  }

  // -------- The directory --------

  const GLOBAL_FILE: string := "_global.yaml"

  /** The `global:` keys that a document sets. */
  datatype Patch = Patch(
    interval: Option<Int64>, packetInterval: Option<Int64>, timeout: Option<Int64>, count: Option<Int64>,
    sourceIP: Option<string>)

  /** The `global:` key of a document; a key without a value leaves a nil pointer. */
  datatype GlobalKey = Absent | Empty | Keys(patch: Patch)

  datatype Document = BadYaml | Document(globalKey: GlobalKey, probes: Option<seq<RawProbe>>)

  datatype Source = Source(name: string, doc: Document) {
    predicate IsGlobal() { name == GLOBAL_FILE }
    function Raws(): seq<RawProbe> {
      if IsGlobal() || doc.BadYaml? || doc.probes.None? then [] else doc.probes.value
    }
  }

  datatype LoadError =
    | InvalidYaml(file: string) | ProbesInGlobal(file: string) | GlobalMisplaced(file: string)
    | BadGlobal(timing: TimingError) | InFile(file: string, probe: ProbeError)
    | InTwoFiles(name: string, first: string, second: string)

  /** `Crashed` is the nil dereference on an empty `global:` key in the global file. */
  datatype Outcome = Loaded(global: Global, probes: seq<ProbeConfig>) | Rejected(error: LoadError) | Crashed

  function Overlay(g: Global, p: Patch): Global {
    Global(OrElse(p.interval, g.interval), OrElse(p.packetInterval, g.packetInterval),
           OrElse(p.timeout, g.timeout), OrElse(p.count, g.count), OrElse(p.sourceIP, g.sourceIP))
  }

  function Update(g: Global, s: Source): Global {
    if s.IsGlobal() && s.doc.Document? && s.doc.globalKey.Keys? then Overlay(g, s.doc.globalKey.patch) else g
  }

  predicate Legal(s: Source) {
    && s.doc.Document?
    && if s.IsGlobal() then s.doc.probes.None? && !s.doc.globalKey.Empty? else !s.doc.globalKey.Keys?
  }

  /** The defaults, overlaid by every global file in turn. */
  function EffectiveGlobal(sources: seq<Source>): Global {
    if sources == [] then DEFAULTS
    else Update(EffectiveGlobal(sources[..|sources| - 1]), sources[|sources| - 1])
  }

  /** The raw probes of all other files, in order. */
  function AllRaws(sources: seq<Source>): seq<RawProbe> {
    if sources == [] then []
    else AllRaws(sources[..|sources| - 1]) + sources[|sources| - 1].Raws()
  }

  /** What the documentation promises: `global:` and `probes:` stand where they may, the
      globals and every probe validate, and probe names are unique across all files. */
  ghost predicate Accepts(sources: seq<Source>, env: Checks) {
    && (forall i :: 0 <= i < |sources| ==> Legal(sources[i]))
    && GlobalOk(EffectiveGlobal(sources))
    && EachOk(AllRaws(sources), EffectiveGlobal(sources), env)
    && Distinct(AllRaws(sources))
  }

  ghost predicate Crashes(sources: seq<Source>) {
    exists i :: 0 <= i < |sources| && HitsNil(sources[i]) && forall k :: 0 <= k < i ==> Legal(sources[k])
  }

  predicate HitsNil(s: Source) {
    s.IsGlobal() && s.doc.Document? && s.doc.probes.None? && s.doc.globalKey.Empty?
  }

  /** The error names something that is wrong with the sources. */
  ghost predicate Explains(e: LoadError, sources: seq<Source>, env: Checks) {
    match e
    case BadGlobal(t) =>
      var g := EffectiveGlobal(sources);
      ValidateTimings(g.interval, g.packetInterval, g.timeout, g.count) == Some(t)
    case InFile(f, p) =>
      exists s :: s in sources && s.name == f && WhyRefused(p, s.Raws(), EffectiveGlobal(sources), env)
    case InTwoFiles(n, first, second) =>
      && (exists s :: s in sources && s.name == first && n in NamesOf(s.Raws()))
      && (exists s :: s in sources && s.name == second && n in NamesOf(s.Raws()))
    case _ => exists s :: s in sources && Faulty(s, e)
  }

  predicate Faulty(s: Source, e: LoadError) {
    match e
    case InvalidYaml(f) => s.name == f && s.doc.BadYaml?
    case ProbesInGlobal(f) => s.name == f && s.IsGlobal() && s.doc.Document? && s.doc.probes.Some?
    case GlobalMisplaced(f) => s.name == f && !s.IsGlobal() && s.doc.Document? && s.doc.globalKey.Keys?
    case _ => false
  }

  // -------- The loops --------

  datatype Fragment = Fragment(file: string, raws: seq<RawProbe>)

  function Concat(fs: seq<Fragment>): seq<RawProbe> {
    if fs == [] then [] else Concat(fs[..|fs| - 1]) + fs[|fs| - 1].raws
  }

  ghost predicate IsOneOf(f: Fragment, sources: seq<Source>) {
    exists s :: s in sources && s.name == f.file && s.Raws() == f.raws
  }

  /** The first loop: collects the globals and the fragments of all legal sources. */
  method Scan(sources: seq<Source>) returns (stop: Option<Outcome>, global: Global, fragments: seq<Fragment>)
    ensures stop.None? <==> forall i :: 0 <= i < |sources| ==> Legal(sources[i])
    ensures stop.None? ==> global == EffectiveGlobal(sources) && Concat(fragments) == AllRaws(sources)
    ensures stop.None? ==> forall f :: f in fragments ==> IsOneOf(f, sources)
    ensures stop.Some? ==> !stop.value.Loaded? && (stop.value.Crashed? <==> Crashes(sources))
    ensures stop.Some? && stop.value.Rejected? ==> exists s :: s in sources && Faulty(s, stop.value.error)
  {
    stop, global, fragments := None, DEFAULTS, [];
    for i := 0 to |sources|
      invariant stop.None?
      invariant forall k :: 0 <= k < i ==> Legal(sources[k])
      invariant global == EffectiveGlobal(sources[..i]) && Concat(fragments) == AllRaws(sources[..i])
      invariant forall f :: f in fragments ==> IsOneOf(f, sources)
    {
      var s := sources[i];
      assert s in sources;
      assert sources[..i + 1][..i] == sources[..i];
      if s.doc.BadYaml? {
        NoCrash(sources, i);
        return Some(Rejected(InvalidYaml(s.name))), global, fragments;
      }
      if s.name == GLOBAL_FILE {
        if s.doc.probes.Some? {
          NoCrash(sources, i);
          return Some(Rejected(ProbesInGlobal(s.name))), global, fragments;
        }
        if s.doc.globalKey.Empty? {
          return Some(Crashed), global, fragments;
        }
        if s.doc.globalKey.Keys? {
          global := Overlay(global, s.doc.globalKey.patch);
        }
        continue;
      }
      if s.doc.globalKey.Keys? {
        NoCrash(sources, i);
        return Some(Rejected(GlobalMisplaced(s.name))), global, fragments;
      }
      ghost var before := fragments;
      fragments := fragments + [Fragment(s.name, if s.doc.probes.Some? then s.doc.probes.value else [])];
      assert fragments[..|fragments| - 1] == before;
      assert s.Raws() == fragments[|fragments| - 1].raws;
    }
    assert sources[..|sources|] == sources;
  }

  /** The first illegal source decides; if that is no nil dereference there is no crash. */
  lemma NoCrash(sources: seq<Source>, i: nat)
    requires i < |sources| && !Legal(sources[i]) && !HitsNil(sources[i])
    requires forall k :: 0 <= k < i ==> Legal(sources[k])
    ensures !Crashes(sources)
  {
  }

  lemma {:induction false} ConcatPrefix(fs: seq<Fragment>, k: nat)
    requires k <= |fs|
    ensures Concat(fs[..k]) <= Concat(fs)
  {
    if k == |fs| {
      assert fs[..k] == fs;
    } else {
      var front := fs[..|fs| - 1];
      assert front[..k] == fs[..k];
      ConcatPrefix(front, k);
    }
  }

  lemma {:induction false} ConcatStep(fs: seq<Fragment>, k: nat)
    requires k < |fs|
    ensures Concat(fs[..k + 1]) == Concat(fs[..k]) + fs[k].raws
  {
    assert fs[..k + 1][..k] == fs[..k];
  }

  /** Notes the file of every probe; stops at the first name another file has defined. */
  method NoteOrigins(origin: map<string, string>, raws: seq<RawProbe>, file: string)
    returns (clash: Option<string>, noted: map<string, string>)
    requires Distinct(raws)
    ensures clash.None? <==> origin.Keys !! NamesOf(raws)
    ensures clash.None? ==> noted.Keys == origin.Keys + NamesOf(raws)
    ensures clash.None? ==> forall n :: n in noted ==> noted[n] == if n in origin then origin[n] else file
    ensures clash.Some? ==> clash.value in NamesOf(raws) && clash.value in origin
  {
    clash, noted := None, origin;
    for i := 0 to |raws|
      invariant clash.None? && noted.Keys == origin.Keys + NamesOf(raws[..i])
      invariant origin.Keys !! NamesOf(raws[..i])
      invariant forall n :: n in noted ==> noted[n] == if n in origin then origin[n] else file
    {
      var n := raws[i].name;
      assert raws[i] in raws && n in NamesOf(raws);
      assert n !in NamesOf(raws[..i]);
      if n in noted {
        return Some(n), noted;
      }
      noted := noted[n := file];
      assert raws[..i + 1] == raws[..i] + [raws[i]];
      assert NamesOf(raws[..i + 1]) == NamesOf(raws[..i]) + {n};
    }
    assert raws[..|raws|] == raws;
  }

  /** `e` is about fragment `f`, and rightly so. */
  ghost predicate Blames(e: LoadError, f: Fragment, g: Global, env: Checks) {
    || (e.InFile? && e.file == f.file && WhyRefused(e.probe, f.raws, g, env))
    || (e.InTwoFiles? && e.second == f.file && e.name in NamesOf(f.raws))
  }

  /** `origin` names for every probe a fragment that defines it. */
  ghost predicate OriginsOk(origin: map<string, string>, fragments: seq<Fragment>) {
    forall n :: n in origin ==> Defines(fragments, origin[n], n)
  }

  ghost predicate Defines(fragments: seq<Fragment>, file: string, name: string) {
    exists f :: f in fragments && f.file == file && name in NamesOf(f.raws)
  }

  datatype Combined = Combined(probes: seq<ProbeConfig>) | Conflict(error: LoadError)

  /** The second loop: merges every fragment and checks names across files. */
  method Combine(fragments: seq<Fragment>, g: Global, env: Checks) returns (r: Combined)
    ensures r.Combined? <==> AllOk(Concat(fragments), g, env)
    ensures r.Combined? ==> r.probes == TypedAll(Concat(fragments), g)
    ensures r.Conflict? ==> exists f :: f in fragments && Blames(r.error, f, g, env)
    ensures r.Conflict? && r.error.InTwoFiles? ==> Defines(fragments, r.error.first, r.error.name)
  {
    var probes: seq<ProbeConfig> := [];
    var origin: map<string, string> := map[];
    for k := 0 to |fragments|
      invariant AllOk(Concat(fragments[..k]), g, env)
      invariant probes == TypedAll(Concat(fragments[..k]), g)
      invariant origin.Keys == NamesOf(Concat(fragments[..k]))
      invariant OriginsOk(origin, fragments)
    {
      var f := fragments[k];
      ghost var before := Concat(fragments[..k]);
      ConcatStep(fragments, k);
      AllOkConcat(before, f.raws, g, env);
      assert f in fragments;
      var pcs := MergeAndValidateProbes(f.raws, g, env);
      if pcs.Refused? {
        ConcatBad(fragments, k + 1, g, env);
        return Conflict(InFile(f.file, pcs.error));
      }
      var clash, noted := NoteOrigins(origin, f.raws, f.file);
      if clash.Some? {
        ConcatBad(fragments, k + 1, g, env);
        return Conflict(InTwoFiles(clash.value, origin[clash.value], f.file));
      }
      forall n | n in noted ensures Defines(fragments, noted[n], n) {
        if n !in origin { assert f in fragments && f.file == noted[n] && n in NamesOf(f.raws); }
      }
      origin := noted;
      probes := probes + pcs.value;
    }
    assert fragments[..|fragments|] == fragments;
    return Combined(probes);
  }

  lemma {:induction false} ConcatBad(fragments: seq<Fragment>, k: nat, g: Global, env: Checks)
    requires k <= |fragments| && !AllOk(Concat(fragments[..k]), g, env)
    ensures !AllOk(Concat(fragments), g, env)
  {
    ConcatPrefix(fragments, k);
    StaysBad(Concat(fragments), |Concat(fragments[..k])|, g, env);
  }

  /** Config merge meets its declarative specification, for any number of sources, any
      placement of the global file and any checks. */
  method ParseProbeSources(sources: seq<Source>, env: Checks) returns (r: Outcome)
    ensures r.Loaded? <==> Accepts(sources, env)
    ensures r.Loaded? ==> r.global == EffectiveGlobal(sources)
                          && r.probes == TypedAll(AllRaws(sources), EffectiveGlobal(sources))
    ensures r.Crashed? <==> Crashes(sources)
    ensures r.Rejected? ==> Explains(r.error, sources, env)
  {
    var stop, global, fragments := Scan(sources);
    if stop.Some? {
      return stop.value;
    }
    assert !Crashes(sources);
    var timing := ValidateTimings(global.interval, global.packetInterval, global.timeout, global.count);
    if timing.Some? {
      return Rejected(BadGlobal(timing.value));
    }
    var c := Combine(fragments, global, env);
    if c.Conflict? {
      assert Explains(c.error, sources, env) by {
        ConflictExplained(c.error, sources, fragments, env);
      }
      return Rejected(c.error);
    }
    return Loaded(global, c.probes);
  }

  lemma {:induction false} ConflictExplained(e: LoadError, sources: seq<Source>, fragments: seq<Fragment>, env: Checks)
    requires exists f :: f in fragments && Blames(e, f, EffectiveGlobal(sources), env)
    requires e.InTwoFiles? ==> Defines(fragments, e.first, e.name)
    requires forall f :: f in fragments ==> IsOneOf(f, sources)
    ensures Explains(e, sources, env)
  {
    var f :| f in fragments && Blames(e, f, EffectiveGlobal(sources), env);
    var s :| s in sources && s.name == f.file && s.Raws() == f.raws;
    if e.InTwoFiles? {
      var f' :| f' in fragments && f'.file == e.first && e.name in NamesOf(f'.raws);
      var s' :| s' in sources && s'.name == f'.file && s'.Raws() == f'.raws;
    }
  }

  // -------- Theorems --------

  ghost function Load(sources: seq<Source>, env: Checks): Option<(Global, seq<ProbeConfig>)> {
    if Accepts(sources, env)
    then Some((EffectiveGlobal(sources), TypedAll(AllRaws(sources), EffectiveGlobal(sources))))
    else None
  }

  ghost predicate NoGlobalFile(sources: seq<Source>) {
    forall i :: 0 <= i < |sources| ==> !sources[i].IsGlobal()
  }

  lemma {:induction false} GlobalFileAnywhere(a: seq<Source>, g: Source, b: seq<Source>)
    requires NoGlobalFile(a) && NoGlobalFile(b) && g.IsGlobal()
    ensures EffectiveGlobal(a + [g] + b) == Update(DEFAULTS, g)
    ensures AllRaws(a + [g] + b) == AllRaws(a + b)
    decreases |b|
  {
    var all := a + [g] + b;
    if b != [] {
      var n := |b| - 1;
      GlobalFileAnywhere(a, g, b[..n]);
      assert all[..|all| - 1] == a + [g] + b[..n];
      assert (a + b)[..|a + b| - 1] == a + b[..n];
    } else {
      assert all[..|all| - 1] == a && a + b == a;
      DefaultsWithoutGlobalFile(a);
    }
  }

  lemma {:induction false} DefaultsWithoutGlobalFile(a: seq<Source>)
    requires NoGlobalFile(a)
    ensures EffectiveGlobal(a) == DEFAULTS
  {
    if a != [] { DefaultsWithoutGlobalFile(a[..|a| - 1]); }
  }

  /** The globals in force, field by field: 30 s, 1 s, 5 s, 3 attempts and no source address,
      but for what the global file, if there is one, sets. */
  lemma {:induction false} GlobalsFieldByField(a: seq<Source>, g: Source, b: seq<Source>)
    requires NoGlobalFile(a) && NoGlobalFile(b) && g.name == "_global.yaml"
    requires g.doc.Document? && g.doc.globalKey.Keys?
    ensures EffectiveGlobal(a) == Global(30_000_000_000, 1_000_000_000, 5_000_000_000, 3, "")
    ensures var e, p := EffectiveGlobal(a + [g] + b), g.doc.globalKey.patch;
            && e.interval == (if p.interval.Some? then p.interval.value else 30_000_000_000)
            && e.packetInterval == (if p.packetInterval.Some? then p.packetInterval.value else 1_000_000_000)
            && e.timeout == (if p.timeout.Some? then p.timeout.value else 5_000_000_000)
            && e.count == (if p.count.Some? then p.count.value else 3)
            && e.sourceIP == (if p.sourceIP.Some? then p.sourceIP.value else "")
  {
    GlobalFileAnywhere(a, g, b);
    DefaultsWithoutGlobalFile(a);
  }

  /** What is loaded does not depend on where the global file stands in the list. */
  lemma {:induction false} PositionOfGlobalFileIrrelevant(
      a: seq<Source>, b: seq<Source>, a': seq<Source>, b': seq<Source>, g: Source, env: Checks)
    requires g.IsGlobal() && NoGlobalFile(a) && NoGlobalFile(b) && NoGlobalFile(a') && NoGlobalFile(b')
    requires a + b == a' + b'
    ensures Load(a + [g] + b, env) == Load(a' + [g] + b', env)
  {
    GlobalFileAnywhere(a, g, b);
    GlobalFileAnywhere(a', g, b');
    LegalWith(a, g, b);
    LegalWith(a', g, b');
  }

  lemma LegalWith(a: seq<Source>, g: Source, b: seq<Source>)
    ensures (forall i :: 0 <= i < |a + [g] + b| ==> Legal((a + [g] + b)[i])) <==>
            Legal(g) && forall i :: 0 <= i < |a + b| ==> Legal((a + b)[i])
  {
    var all := a + [g] + b;
    assert all[|a|] == g;
    assert forall i :: 0 <= i < |a| ==> all[i] == a[i] == (a + b)[i];
    assert forall i :: 0 <= i < |b| ==> all[|a| + 1 + i] == b[i] == (a + b)[|a| + i];
    if forall i :: 0 <= i < |all| ==> Legal(all[i]) {
      forall i | 0 <= i < |a + b| ensures Legal((a + b)[i]) {
        if i >= |a| { assert (a + b)[i] == all[i + 1]; }
      }
    }
    if Legal(g) && forall i :: 0 <= i < |a + b| ==> Legal((a + b)[i]) {
      forall i | 0 <= i < |all| ensures Legal(all[i]) {
        if i > |a| { assert all[i] == (a + b)[i - 1]; }
      }
    }
  }

  function ForDaemon(probes: seq<ProbeConfig>): (ps: seq<Daemon.Probe>)
    ensures |ps| == |probes|
    ensures forall i :: 0 <= i < |probes| ==> ps[i] == Daemon.Probe(probes[i].name, probes[i].kind)
  {
    seq(|probes|, i requires 0 <= i < |probes| => Daemon.Probe(probes[i].name, probes[i].kind))
  }

  /** Every loaded configuration is one the daemon's protocol may rely on: distinct names,
      and no probe is lost in the factory. */
  lemma {:induction false} LoadedIsAccepted(sources: seq<Source>, env: Checks)
    requires Load(sources, env).Some?
    ensures Daemon.Accepted(ForDaemon(Load(sources, env).value.1))
  {
    var raws, g := AllRaws(sources), EffectiveGlobal(sources);
    var ps := ForDaemon(TypedAll(raws, g));
    forall i | 0 <= i < |ps| ensures FactoryBuilds(ps[i].kind) && ps[i].name == raws[i].name {
      AcceptedProbe(raws[i], g, env);
    }
  }

  /** The loaded probes are the raw ones of all files, in order, each with its own name, kind
      and targets, and with its own settings or else the globals in force. */
  lemma {:induction false} LoadedProbes(sources: seq<Source>, env: Checks, i: nat)
    requires Load(sources, env).Some? && i < |AllRaws(sources)|
    ensures |Load(sources, env).value.1| == |AllRaws(sources)|
    ensures var pc, r, g := Load(sources, env).value.1[i], AllRaws(sources)[i], Load(sources, env).value.0;
            && pc.name == r.name && pc.kind == r.kind && pc.targets == r.targets
            && pc.maxResolvedIPs == r.maxResolvedIPs
            && pc.sourceIP == (if r.sourceIP != "" then r.sourceIP else g.sourceIP)
            && pc.interval == (if r.interval.Some? then r.interval.value else g.interval)
            && pc.packetInterval == (if r.packetInterval.Some? then r.packetInterval.value else g.packetInterval)
            && pc.timeout == (if r.timeout.Some? then r.timeout.value else g.timeout)
            && pc.count == (if r.count.Some? then r.count.value else g.count)
  {
    var raws, g := AllRaws(sources), EffectiveGlobal(sources);
    assert Fine(raws[i], g, env);
    MergedFields(raws[i], g, env);
  }
}
