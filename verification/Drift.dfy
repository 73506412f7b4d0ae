/** Comparing what a release declares with what runs (drift/live.go).

    The comparison has to be silent about what the daemon itself does to a spec,
    and about nothing else. */
module Drift {
  import opened Text
  import opened Specs
  import Services

  // --- the comparing loops ---

  /** The keys of a set in whatever order they come. */
  method KeysOf(all: set<string>) returns (out: seq<string>)
    ensures Distinct(out) && forall k :: k in out <==> k in all
  {
    out := [];
    var rest := all;
    while rest != {}
      invariant rest <= all && Distinct(out)
      invariant forall k :: k in out <==> k in all - rest
      decreases |rest|
    {
      var k :| k in rest;
      assert k !in out;
      rest := rest - {k};
      out := out + [k];
    }
  }

  /** unionKeys: whatever order the maps are walked in, the order of the result is
      the same. */
  method UnionKeys(a: map<string, string>, b: map<string, string>) returns (out: seq<string>)
    ensures out == Union(a, b)
  {
    hide Sorted, Listed;
    var keys := KeysOf(a.Keys + b.Keys);
    SameMembersSorted(keys, Listed(a.Keys + b.Keys));
    out := Sorted(keys);
  }

  lemma SameMembersSorted(a: seq<string>, b: seq<string>)
    requires Distinct(a) && Distinct(b) && forall k :: k in a <==> k in b
    ensures Sorted(a) == Sorted(b)
  {
    DistinctCounts(a);
    DistinctCounts(b);
    forall k ensures multiset(a)[k] == multiset(b)[k] {
      assert k in multiset(a) <==> k in a;
      assert k in multiset(b) <==> k in b;
    }
    assert multiset(a) == multiset(b);
    SortedIsCanonical(a, b);
  }

  /** compareKeyed, and the two comparisons that show no values. */
  method CompareKeyed(r: Rendering, prefix: string, want: map<string, string>, got: map<string, string>) returns (fields: seq<Field>)
    ensures fields == Keyed(r, prefix, want, got)
  {
    var ks := UnionKeys(want, got);
    hide Union, KeyedAt;
    fields := [];
    for i := 0 to |ks|
      invariant fields == KeyedOver(ks[..i], r, prefix, want, got)
    {
      assert ks[..i + 1][..i] == ks[..i];
      fields := fields + KeyedAt(r, prefix, ks[i], want, got);
    }
    assert ks[..|ks|] == ks;
  }

  /** A list as a map, a later entry replacing an earlier one. */
  method IndexBy<T>(xs: seq<T>, entry: T -> Option<Pair>) returns (m: map<string, string>)
    ensures m == IndexOf(xs, entry)
  {
    m := map[];
    for i := 0 to |xs|
      invariant m == IndexOf(xs[..i], entry)
    {
      assert xs[..i + 1][..i] == xs[..i];
      var e := entry(xs[i]);
      if e.Some? { m := m[e.value.key := e.value.value]; }
    }
    assert xs[..|xs|] == xs;
  }

  /** secretTargets and configTargets: the targets of each name, appended as met,
      then sorted and joined. */
  method Targets<T>(refs: seq<T>, entry: T -> Option<Pair>) returns (m: map<string, string>)
    ensures m == Joined(FilterMap(refs, entry))
  {
    hide Grouped, Joined, ValuesOf;
    var byName: map<string, seq<string>> := map[];
    ghost var pairs: seq<Pair> := [];
    NothingGrouped();
    for i := 0 to |refs|
      invariant pairs == FilterMap(refs[..i], entry)
      invariant Grouped(byName, pairs)
    {
      assert refs[..i + 1][..i] == refs[..i];
      var e := entry(refs[i]);
      if e.Some? {
        GroupedNext(byName, pairs, e.value);
        byName := byName[e.value.key := (if e.value.key in byName then byName[e.value.key] else []) + [e.value.value]];
        pairs := pairs + [e.value];
      }
    }
    assert refs[..|refs|] == refs;
    GroupedIsJoined(byName, pairs);
    m := map k | k in byName :: Join(Sorted(byName[k]), ", ");
  }

  lemma NothingGrouped()
    ensures Grouped(map[], [])
  {
  }

  lemma GroupedIsJoined(byName: map<string, seq<string>>, pairs: seq<Pair>)
    requires Grouped(byName, pairs)
    ensures (map k | k in byName :: Join(Sorted(byName[k]), ", ")) == Joined(pairs)
  {
  }

  ghost predicate Grouped(byName: map<string, seq<string>>, pairs: seq<Pair>) {
    (forall k :: k in byName <==> exists i :: 0 <= i < |pairs| && pairs[i].key == k) &&
    forall k :: k in byName ==> byName[k] == ValuesOf(pairs, k)
  }

  lemma {:induction false} NoValues(pairs: seq<Pair>, key: string)
    requires forall i :: 0 <= i < |pairs| ==> pairs[i].key != key
    ensures ValuesOf(pairs, key) == []
    decreases |pairs|
  {
    if pairs != [] { NoValues(pairs[..|pairs| - 1], key); }
  }

  lemma GroupedNext(byName: map<string, seq<string>>, pairs: seq<Pair>, p: Pair)
    requires Grouped(byName, pairs)
    ensures Grouped(byName[p.key := (if p.key in byName then byName[p.key] else []) + [p.value]], pairs + [p])
  {
    assert (pairs + [p])[..|pairs|] == pairs;
    if p.key !in byName { NoValues(pairs, p.key); }
    var next := byName[p.key := (if p.key in byName then byName[p.key] else []) + [p.value]];
    forall k ensures k in next <==> exists i :: 0 <= i < |pairs + [p]| && (pairs + [p])[i].key == k {
      if k == p.key { assert (pairs + [p])[|pairs|].key == k; }
      if k in byName {
        var i :| 0 <= i < |pairs| && pairs[i].key == k;
        assert (pairs + [p])[i].key == k;
      }
    }
  }

  const MAX_FIELDS := 20

  /** compareService: the differences in order, and how many were left out. */
  method CompareService(norm: string -> string, want: Spec, got: Spec, nets: Option<map<string, string>>)
    returns (fields: seq<Field>, truncated: nat)
    ensures var all := Fields(norm, want, got, nets);
            if |all| > MAX_FIELDS then fields == all[..MAX_FIELDS] && truncated == |all| - MAX_FIELDS
            else fields == all && truncated == 0
  {
    hide Keyed, IndexOf, Joined, FilterMap, Sorted, ModeFields, ImageFields, ResourceFields, NetworkFields, OwnLabels;
    var a := CompareWorkload(norm, want, got);
    var b := CompareAccess(want, got, nets);
    var c := CompareContainer(want, got);
    fields := a + b + PolicyFields(want, got) + c;
    if |fields| > MAX_FIELDS { return fields[..MAX_FIELDS], |fields| - MAX_FIELDS; }
    truncated := 0;
  }

  method CompareWorkload(norm: string -> string, want: Spec, got: Spec) returns (fields: seq<Field>)
    ensures fields == WorkloadFields(norm, want, got)
  {
    hide Keyed, IndexOf, Sorted, ModeFields, ImageFields, ResourceFields, Constraints;
    var w, g := ContainerOf(want), ContainerOf(got);
    fields := ModeFields(want.mode, got.mode);
    fields := fields + ImageFields(norm, w, g);
    fields := fields + ResourceFields(want.resources, got.resources);
    var we := IndexBy(w.env, EnvEntry);
    var ge := IndexBy(g.env, EnvEntry);
    var env := CompareKeyed(Names, "env", we, ge);
    fields := fields + env;
    fields := fields + DifferAsSet("constraints", Constraints(want.placement), Constraints(got.placement));
  }

  method Ports(e: Option<Endpoint>) returns (m: map<string, string>)
    ensures m == PortSet(e)
  {
    if e.None? { return map[]; }
    m := IndexBy(e.value.ports, PortEntry);
  }

  method CompareAccess(want: Spec, got: Spec, nets: Option<map<string, string>>) returns (fields: seq<Field>)
    ensures fields == AccessFields(want, got, nets)
  {
    hide Keyed, IndexOf, Joined, FilterMap, PortSet, OwnLabels, NetworkFields, ResolutionMode;
    var w, g := ContainerOf(want), ContainerOf(got);
    fields := CompareKeyed(Values, "labels", OwnLabels(want.labels), OwnLabels(got.labels));
    var wp := Ports(want.endpoint);
    var gp := Ports(got.endpoint);
    var ports := CompareKeyed(Names, "ports", wp, gp);
    fields := fields + ports;
    fields := fields + Differ("endpointMode", Shown(ResolutionMode(want.endpoint)), Shown(ResolutionMode(got.endpoint)));
    fields := fields + NetworkFields(want, got, nets);
    var wm := IndexBy(w.mounts, MountEntry);
    var gm := IndexBy(g.mounts, MountEntry);
    var mounts := CompareKeyed(Values, "mounts", wm, gm);
    fields := fields + mounts;
    var ws := Targets(w.secrets, SecretEntry);
    var gs := Targets(g.secrets, SecretEntry);
    var secrets := CompareKeyed(Values, "secrets", ws, gs);
    fields := fields + secrets;
    var wc := Targets(w.configs, ConfigEntry);
    var gc := Targets(g.configs, ConfigEntry);
    var configs := CompareKeyed(Values, "configs", wc, gc);
    fields := fields + configs;
  }

  method CompareContainer(want: Spec, got: Spec) returns (fields: seq<Field>)
    ensures fields == ContainerFields(want, got)
  {
    hide Keyed, IndexOf, Sorted, Join, ScalarFields, DNSFields, PrivilegeFields, OwnLabels;
    var w, g := ContainerOf(want).literal, ContainerOf(got).literal;
    fields := ScalarFields(w, g);
    var collections := CompareCollections(w, g);
    fields := fields + collections;
    var labels := CompareKeyed(Values, "containerLabels", OwnLabels(w.labels), OwnLabels(g.labels));
    var runtime := Differ("openStdin", Bool(w.openStdin), Bool(g.openStdin)) +
      Differ("oomScoreAdj", Num(w.oomScoreAdj), Num(g.oomScoreAdj)) +
      Differ("isolation", Shown(NonEmpty(w.isolation, "default")), Shown(NonEmpty(g.isolation, "default"))) +
      labels + PrivilegeFields(w.privileges, g.privileges);
    fields := fields + runtime;
    var driver := CompareDriver(want.logDriver, got.logDriver);
    fields := fields + driver;
  }

  method CompareCollections(w: Literal, g: Literal) returns (fields: seq<Field>)
    ensures fields == CollectionFields(w, g)
  {
    hide Keyed, IndexOf, Sorted, Join, DNSFields;
    var sysctls := CompareKeyed(Values, "sysctls", w.sysctls, g.sysctls);
    var wu := IndexBy(w.ulimits, UlimitEntry);
    var gu := IndexBy(g.ulimits, UlimitEntry);
    var ulimits := CompareKeyed(Values, "ulimits", wu, gu);
    fields := DifferAsSet("hosts", w.hosts, g.hosts) +
      DifferAsSet("groups", w.groups, g.groups) +
      DifferAsSet("capabilityAdd", w.capabilityAdd, g.capabilityAdd) +
      DifferAsSet("capabilityDrop", w.capabilityDrop, g.capabilityDrop) +
      sysctls + ulimits + DNSFields(w.dns, g.dns);
  }

  method CompareDriver(want: Option<Driver>, got: Option<Driver>) returns (fields: seq<Field>)
    ensures fields == DriverFields(want, got)
  {
    hide Keyed;
    if want.None? || got.None? { return DifferInPresence("logDriver", want.Some?, got.Some?); }
    var options := CompareKeyed(Values, "logDriver.options", want.value.options, got.value.options);
    fields := Differ("logDriver.name", Shown(want.value.name), Shown(got.value.name)) + options;
  }

  // --- Live ---

  datatype UpdateState = Updating | Paused | Completed | RollbackStarted | RollbackPaused | RollbackCompleted
  datatype Running = Running(spec: Spec, update: Option<(UpdateState, string)>)
  datatype Declared = Declared(name: string, spec: Spec)

  datatype Reason = Missing | Modified | RolledBack | Unexpected
  datatype ServiceDrift = ServiceDrift(name: string, reason: Reason, fields: seq<Field>, truncated: nat, message: string)
  datatype Report = Report(detected: bool, services: seq<ServiceDrift>)

  function RolledBackBy(r: Running): Option<string> {
    if r.update.Some? && (r.update.value.0.RollbackStarted? || r.update.value.0.RollbackPaused? || r.update.value.0.RollbackCompleted?)
    then Some(r.update.value.1) else None
  }

  /** One service's differences, cut, and whose doing they are. */
  function Rendered(name: string, all: seq<Field>, back: Option<string>): ServiceDrift {
    var shown := if |all| > MAX_FIELDS then all[..MAX_FIELDS] else all;
    ServiceDrift(name, if back.Some? then RolledBack else Modified, shown, |all| - |shown|, OrElse(back, ""))
  }

  /** What is said of a declared service: nothing exactly when it runs as declared,
      and a rollback only when it does not. */
  ghost function SaidOf(norm: string -> string, d: Declared, live: map<string, Running>,
                        nets: Option<map<string, string>>): seq<ServiceDrift> {
    if d.name !in live then [ServiceDrift(d.name, Missing, [], 0, "")]
    else
      var all := Fields(norm, d.spec, live[d.name].spec, nets);
      if all == [] then [] else [Rendered(d.name, all, RolledBackBy(live[d.name]))]
  }

  method Say(norm: string -> string, d: Declared, live: map<string, Running>, nets: Option<map<string, string>>)
    returns (said: seq<ServiceDrift>)
    ensures said == SaidOf(norm, d, live, nets)
  {
    hide Fields, RolledBackBy;
    if d.name !in live { return [ServiceDrift(d.name, Missing, [], 0, "")]; }
    var fields, truncated := CompareService(norm, d.spec, live[d.name].spec, nets);
    if |fields| == 0 { return []; }
    var back := RolledBackBy(live[d.name]);
    said := [ServiceDrift(d.name, if back.Some? then RolledBack else Modified, fields, truncated, OrElse(back, ""))];
  }

  ghost function SaidOfAll(norm: string -> string, stack: seq<Declared>, live: map<string, Running>,
                           nets: Option<map<string, string>>): seq<ServiceDrift>
    decreases |stack|
  {
    if stack == [] then []
    else SaidOfAll(norm, stack[..|stack| - 1], live, nets) + SaidOf(norm, stack[|stack| - 1], live, nets)
  }

  /** Whether a declared service runs as declared. */
  ghost predicate InPlace(norm: string -> string, d: Declared, live: map<string, Running>, nets: Option<map<string, string>>) {
    d.name in live && Fields(norm, d.spec, live[d.name].spec, nets) == []
  }

  lemma {:induction false} SaidNothingExactly(norm: string -> string, stack: seq<Declared>, live: map<string, Running>,
                                              nets: Option<map<string, string>>)
    ensures SaidOfAll(norm, stack, live, nets) == [] <==> forall i :: 0 <= i < |stack| ==> InPlace(norm, stack[i], live, nets)
    decreases |stack|
  {
    hide Fields;
    if stack != [] {
      SaidNothingExactly(norm, stack[..|stack| - 1], live, nets);
      assert forall i :: 0 <= i < |stack| - 1 ==> stack[..|stack| - 1][i] == stack[i];
    }
  }

  /** The names that run and are not declared, in order. */
  ghost predicate IsExtra(extra: seq<string>, stack: seq<Declared>, live: map<string, Running>) {
    Ascending(extra) && Distinct(extra) &&
    forall n :: n in extra <==> n in live && forall i :: 0 <= i < |stack| ==> stack[i].name != n
  }

  method SayAll(norm: string -> string, stack: seq<Declared>, live: map<string, Running>, nets: Option<map<string, string>>)
    returns (services: seq<ServiceDrift>)
    ensures services == SaidOfAll(norm, stack, live, nets)
  {
    hide SaidOf;
    services := [];
    for i := 0 to |stack|
      invariant services == SaidOfAll(norm, stack[..i], live, nets)
    {
      assert stack[..i + 1][..i] == stack[..i];
      var said := Say(norm, stack[i], live, nets);
      services := services + said;
    }
    assert stack[..|stack|] == stack;
  }

  method NamesDeclared(stack: seq<Declared>) returns (declared: set<string>)
    ensures forall n :: n in declared <==> exists i :: 0 <= i < |stack| && stack[i].name == n
  {
    declared := {};
    for i := 0 to |stack|
      invariant forall n :: n in declared <==> exists k :: 0 <= k < i && stack[k].name == n
    {
      declared := declared + {stack[i].name};
    }
  }

  /** Live: what each declared service has to be told of, in the stack's order, then
      what is undeclared, in order of name. */
  method Live(norm: string -> string, desired: Option<seq<Declared>>, live: map<string, Running>, nets: Option<map<string, string>>)
    returns (report: Report, ghost extra: seq<string>)
    ensures report.detected <==> report.services != []
    ensures desired.None? ==> report.services == []
    ensures desired.Some? ==> IsExtra(extra, desired.value, live)
    ensures desired.Some? ==> report.services == SaidOfAll(norm, desired.value, live, nets) + Unexpecteds(extra)
  {
    hide SaidOfAll, Ascending, Distinct;
    if desired.None? { return Report(false, []), []; }
    var services := SayAll(norm, desired.value, live, nets);
    var declared := NamesDeclared(desired.value);
    var undeclared := Extra(live, declared);
    extra := undeclared;
    var all := services + Unexpecteds(undeclared);
    report := Report(|all| > 0, all);
  }

  /** The state is none exactly when every declared service runs, as declared, and
      nothing undeclared does. */
  lemma SilentReport(norm: string -> string, stack: seq<Declared>, live: map<string, Running>,
                     nets: Option<map<string, string>>, extra: seq<string>)
    requires IsExtra(extra, stack, live)
    ensures SaidOfAll(norm, stack, live, nets) + Unexpecteds(extra) == [] <==>
            (forall i :: 0 <= i < |stack| ==> InPlace(norm, stack[i], live, nets)) &&
            forall n :: n in live ==> exists i :: 0 <= i < |stack| && stack[i].name == n
  {
    SaidNothingExactly(norm, stack, live, nets);
    hide SaidOfAll, InPlace;
    if extra != [] { assert extra[0] in extra; }
  }

  function Unexpecteds(names: seq<string>): (r: seq<ServiceDrift>)
    ensures |r| == |names|
  {
    seq(|names|, i requires 0 <= i < |names| => ServiceDrift(names[i], Unexpected, [], 0, ""))
  }

  /** What is reported of a declared service: that it is missing; or its differences,
      at most twenty of them and the rest counted, and that it was rolled back, with
      the daemon's reason, exactly when its last update is a rollback. */
  ghost predicate Reported(x: ServiceDrift, norm: string -> string, d: Declared, live: map<string, Running>,
                           nets: Option<map<string, string>>) {
    if d.name !in live then x == ServiceDrift(d.name, Missing, [], 0, "")
    else
      var all := Fields(norm, d.spec, live[d.name].spec, nets);
      x.name == d.name && x.fields <= all && all != [] && |x.fields| + x.truncated == |all| &&
      |x.fields| <= 20 && (x.truncated > 0 ==> |x.fields| == 20) &&
      match live[d.name].update
      case Some((RollbackStarted, why)) => x.reason == RolledBack && x.message == why
      case Some((RollbackPaused, why)) => x.reason == RolledBack && x.message == why
      case Some((RollbackCompleted, why)) => x.reason == RolledBack && x.message == why
      case _ => x.reason == Modified && x.message == ""
  }

  lemma SaidIsReported(norm: string -> string, d: Declared, live: map<string, Running>, nets: Option<map<string, string>>)
    ensures |SaidOf(norm, d, live, nets)| == if InPlace(norm, d, live, nets) then 0 else 1
    ensures !InPlace(norm, d, live, nets) ==> Reported(SaidOf(norm, d, live, nets)[0], norm, d, live, nets)
  {
    hide Fields;
  }

  /** The report speaks of every declared service that is not in place, once and in
      the stack's order, and then of what is undeclared. */
  lemma {:induction false} ReportsInOrder(norm: string -> string, stack: seq<Declared>, live: map<string, Running>,
                                          nets: Option<map<string, string>>, extra: seq<string>) returns (at: seq<nat>)
    ensures var services := SaidOfAll(norm, stack, live, nets) + Unexpecteds(extra);
            |services| == |at| + |extra| &&
            (forall j, k :: 0 <= j < k < |at| ==> at[j] < at[k]) && (forall k :: 0 <= k < |at| ==> at[k] < |stack|) &&
            (forall i :: 0 <= i < |stack| && !InPlace(norm, stack[i], live, nets) ==> i in at) &&
            (forall k :: 0 <= k < |at| ==> Reported(services[k], norm, stack[at[k]], live, nets)) &&
            forall k :: 0 <= k < |extra| ==> services[|at| + k] == ServiceDrift(extra[k], Unexpected, [], 0, "")
    decreases |stack|
  {
    hide SaidOf, InPlace, Reported;
    if stack == [] {
      at := [];
    } else {
      var n := |stack| - 1;
      var before := ReportsInOrder(norm, stack[..n], live, nets, []);
      SaidIsReported(norm, stack[n], live, nets);
      assert forall i :: 0 <= i < n ==> stack[..n][i] == stack[i];
      at := before + if InPlace(norm, stack[n], live, nets) then [] else [n];
    }
  }

  method Extra(live: map<string, Running>, declared: set<string>) returns (extra: seq<string>)
    ensures Ascending(extra) && Distinct(extra) && forall n :: n in extra <==> n in live && n !in declared
  {
    extra := [];
    var rest := live.Keys;
    while rest != {}
      invariant rest <= live.Keys && Distinct(extra)
      invariant forall n :: n in extra <==> n in live.Keys - rest && n !in declared
      decreases |rest|
    {
      var n :| n in rest;
      rest := rest - {n};
      assert n !in extra;
      if n !in declared { extra := extra + [n]; }
    }
    SortedAscending(extra);
    SortedKeepsMembers(extra);
    extra := Sorted(extra);
  }

  // --- what the daemon reads back ---

  /** Counts the manifest left out are one, and a total left out is the concurrency. */
  function FilledMode(m: Mode): Mode {
    if m.global then Mode(true, None, false, None)
    else if m.job.Some? then
      var concurrent := OrElse(m.job.value.maxConcurrent, 1);
      Mode(false, Some(Job(Some(concurrent), Some(OrElse(m.job.value.totalCompletions, concurrent)))), false, None)
    else if m.globalJob then Mode(false, None, true, None)
    else Mode(false, None, false, Some(Some(if m.replicated.None? then 1 else OrElse(m.replicated.value, 1))))
  }

  function FilledPort(p: Port): Port {
    p.(protocol := NonEmpty(p.protocol, "tcp"), mode := NonEmpty(p.mode, "ingress"))
  }

  function FilledPorts(ps: seq<Port>): seq<Port> {
    seq(|ps|, i requires 0 <= i < |ps| => FilledPort(ps[i]))
  }

  function FilledMounts(ms: seq<Mount>): seq<Mount> {
    seq(|ms|, i requires 0 <= i < |ms| => ms[i].(kind := NonEmpty(ms[i].kind, "bind")))
  }

  function FilledUpdate(u: Option<Update>): Option<Update> {
    if u.None? then None
    else Some(u.value.(failureAction := NonEmpty(u.value.failureAction, "pause"), order := NonEmpty(u.value.order, "stop-first")))
  }

  /** References the daemon keeps: one without a target is dropped. */
  function Kept<T>(refs: seq<T>, entry: T -> Option<Pair>): seq<T> {
    if refs == [] then []
    else Kept(refs[..|refs| - 1], entry) + if entry(refs[|refs| - 1]).None? then [] else [refs[|refs| - 1]]
  }

  predicate LiteralBack(want: Literal, got: Literal) {
    got == want.(hosts := got.hosts, groups := got.groups, capabilityAdd := got.capabilityAdd,
                 capabilityDrop := got.capabilityDrop, dns := got.dns, labels := got.labels,
                 isolation := NonEmpty(want.isolation, "default")) &&
    Permuted(want.hosts, got.hosts) && Permuted(want.groups, got.groups) &&
    Permuted(want.capabilityAdd, got.capabilityAdd) && Permuted(want.capabilityDrop, got.capabilityDrop) &&
    OwnLabels(got.labels) == OwnLabels(want.labels) &&
    (got.dns.Some? <==> want.dns.Some?) &&
    (want.dns.Some? ==> Permuted(want.dns.value.nameservers, got.dns.value.nameservers) &&
                        Permuted(want.dns.value.search, got.dns.value.search) &&
                        Permuted(want.dns.value.options, got.dns.value.options))
  }

  predicate ContainerBack(want: Container, got: Container, image: string) {
    got.image == image && got.env == want.env && got.mounts == FilledMounts(want.mounts) &&
    Permuted(Kept(want.secrets, SecretEntry), got.secrets) && Permuted(Kept(want.configs, ConfigEntry), got.configs) &&
    got.health == want.health && LiteralBack(want.literal, got.literal)
  }

  predicate ResourcesBack(want: Option<Resources>, got: Option<Resources>) {
    Limits(got) == Limits(want) &&
    Reservations(got).nanoCPUs == Reservations(want).nanoCPUs && Reservations(got).memory == Reservations(want).memory &&
    Permuted(Reservations(want).generic, Reservations(got).generic)
  }

  /** Placement that placed nothing may read back as none. */
  predicate PlacementBack(want: Option<Placement>, got: Option<Placement>) {
    Permuted(Constraints(want), Constraints(got)) && Preferences(got) == Preferences(want) && MaxReplicas(got) == MaxReplicas(want)
  }

  predicate EndpointBack(want: Option<Endpoint>, got: Option<Endpoint>) {
    (got.None? ==> want.None?) &&
    (got.Some? ==> got.value.mode == NonEmpty(if want.None? then "" else want.value.mode, "vip") &&
                   Permuted(FilledPorts(if want.None? then [] else want.value.ports), got.value.ports))
  }

  predicate RestartBack(want: Option<Restart>, got: Option<Restart>) {
    (got.Some? <==> want.Some?) &&
    (want.Some? ==> got.value.condition == NonEmpty(want.value.condition, "any") &&
                    got.value.maxAttempts == Some(OrElse(want.value.maxAttempts, 0)) &&
                    (got.value.delay == want.value.delay || got.value.delay == Some(OrElse(want.value.delay, 0))) &&
                    (got.value.window == want.value.window || got.value.window == Some(OrElse(want.value.window, 0))))
  }

  /** What the daemon reads back of a spec that nobody has touched: enums and
      counts under their defaults, the image as `image`, networks as ids, lists
      that are really sets in any order, and its own labels beside the stack's. */
  predicate ReadBack(want: Spec, got: Spec, nets: Option<map<string, string>>, image: string) {
    got.mode == FilledMode(want.mode) &&
    (got.container.Some? <==> want.container.Some?) &&
    (want.container.Some? ==> ContainerBack(want.container.value, got.container.value, image)) &&
    ResourcesBack(want.resources, got.resources) && PlacementBack(want.placement, got.placement) &&
    OwnLabels(got.labels) == OwnLabels(want.labels) && EndpointBack(want.endpoint, got.endpoint) &&
    (LiveNetworks(want, got, nets).Some? ==> Permuted(want.networks, LiveNetworks(want, got, nets).value)) &&
    got.update == FilledUpdate(want.update) && got.rollback == FilledUpdate(want.rollback) &&
    RestartBack(want.restart, got.restart) && got.logDriver == want.logDriver
  }

  /** Every spec has a read-back; the plainest fills in the defaults and keeps the rest. */
  lemma EverySpecReadsBack(want: Spec, image: string) returns (got: Spec)
    ensures ReadBack(want, got, None, image)
    ensures got.labels == want.labels && got.networks == want.networks && got.placement == want.placement
  {
    hide OwnLabels, Kept, FilledPorts, FilledMounts, FilledUpdate, FilledMode, Limits, Reservations, Constraints, Preferences, MaxReplicas;
    got := want.(mode := FilledMode(want.mode), update := FilledUpdate(want.update), rollback := FilledUpdate(want.rollback));
    if want.endpoint.Some? {
      got := got.(endpoint := Some(Endpoint(NonEmpty(want.endpoint.value.mode, "vip"), FilledPorts(want.endpoint.value.ports))));
    }
    if want.restart.Some? {
      var r := want.restart.value;
      got := got.(restart := Some(r.(condition := NonEmpty(r.condition, "any"), maxAttempts := Some(OrElse(r.maxAttempts, 0)))));
    }
    if want.container.Some? {
      var c := want.container.value;
      got := got.(container := Some(c.(image := image, mounts := FilledMounts(c.mounts), secrets := Kept(c.secrets, SecretEntry),
        configs := Kept(c.configs, ConfigEntry), literal := c.literal.(isolation := NonEmpty(c.literal.isolation, "default")))));
    }
  }

  lemma {:induction false} KeptMapsAlike<T>(refs: seq<T>, entry: T -> Option<Pair>)
    ensures FilterMap(Kept(refs, entry), entry) == FilterMap(refs, entry)
    decreases |refs|
  {
    if refs != [] {
      var n := |refs| - 1;
      KeptMapsAlike(refs[..n], entry);
      var before := Kept(refs[..n], entry);
      assert (before + [refs[n]])[..|before|] == before;
      assert before + [] == before;
    }
  }

  lemma JoinedMembers(pairs: seq<Pair>)
    ensures forall k :: k in Joined(pairs) <==> exists p :: p in multiset(pairs) && p.key == k
  {
  }

  lemma JoinedPermuted(a: seq<Pair>, b: seq<Pair>)
    requires Permuted(a, b)
    ensures Joined(a) == Joined(b)
  {
    JoinedMembers(a);
    JoinedMembers(b);
    hide Join, Sorted;
    forall k | k in Joined(a) ensures Joined(a)[k] == Joined(b)[k] {
      FilterMapPermuted(a, b, (p: Pair) => ValueUnder(k, p));
      SortedIsCanonical(ValuesOf(a, k), ValuesOf(b, k));
    }
  }

  lemma ReferencesBack<T>(want: seq<T>, got: seq<T>, entry: T -> Option<Pair>)
    requires Permuted(Kept(want, entry), got)
    ensures Joined(FilterMap(want, entry)) == Joined(FilterMap(got, entry))
  {
    KeptMapsAlike(want, entry);
    FilterMapPermuted(Kept(want, entry), got, entry);
    JoinedPermuted(FilterMap(want, entry), FilterMap(got, entry));
  }

  lemma {:induction false} IndexPointwise<T>(a: seq<T>, b: seq<T>, entry: T -> Option<Pair>)
    requires |a| == |b| && forall i :: 0 <= i < |a| ==> entry(a[i]) == entry(b[i])
    ensures IndexOf(a, entry) == IndexOf(b, entry)
    decreases |a|
  {
    if a != [] { IndexPointwise(a[..|a| - 1], b[..|b| - 1], entry); }
  }

  lemma {:induction false} PortKeys(ps: seq<Port>)
    ensures forall k :: k in IndexOf(ps, PortEntry) <==> exists i :: 0 <= i < |ps| && PortKey(ps[i]) == k
    ensures forall k :: k in IndexOf(ps, PortEntry) ==> IndexOf(ps, PortEntry)[k] == ""
    decreases |ps|
  {
    hide PortKey;
    if ps != [] {
      var n := |ps| - 1;
      PortKeys(ps[..n]);
      assert forall i :: 0 <= i < n ==> ps[..n][i] == ps[i];
    }
  }

  lemma PortsPermuted(a: seq<Port>, b: seq<Port>)
    requires Permuted(a, b)
    ensures IndexOf(a, PortEntry) == IndexOf(b, PortEntry)
  {
    hide PortKey;
    SameMembers(a, b);
    SameMembers(b, a);
    PortKeys(a);
    PortKeys(b);
    hide IndexOf;
    forall k ensures k in IndexOf(a, PortEntry) <==> k in IndexOf(b, PortEntry) {
      if k in IndexOf(a, PortEntry) {
        var i :| 0 <= i < |a| && PortKey(a[i]) == k;
        var j :| 0 <= j < |b| && b[j] == a[i];
        assert PortKey(b[j]) == k;
      }
      if k in IndexOf(b, PortEntry) {
        var i :| 0 <= i < |b| && PortKey(b[i]) == k;
        var j :| 0 <= j < |a| && a[j] == b[i];
        assert PortKey(a[j]) == k;
      }
    }
  }

  lemma PortsBack(want: Option<Endpoint>, got: Option<Endpoint>)
    requires EndpointBack(want, got)
    ensures PortSet(want) == PortSet(got) && ResolutionMode(want) == ResolutionMode(got)
  {
    if got.Some? {
      var ports := if want.None? then [] else want.value.ports;
      IndexPointwise(ports, FilledPorts(ports), PortEntry);
      PortsPermuted(FilledPorts(ports), got.value.ports);
      hide IndexOf;
      assert IndexOf(ports, PortEntry) == IndexOf(got.value.ports, PortEntry);
      if want.None? { assert IndexOf<Port>([], PortEntry) == map[] by { EmptyIndex(); } }
    }
  }

  lemma EmptyIndex()
    ensures IndexOf<Port>([], PortEntry) == map[]
  {
  }

  lemma LiteralsBack(want: Literal, got: Literal)
    requires LiteralBack(want, got)
    ensures NormalScalarsOf(want) == NormalScalarsOf(got) && NormalCollectionsOf(want) == NormalCollectionsOf(got)
    ensures NormalRuntimeOf(want) == NormalRuntimeOf(got)
  {
    hide Sorted, Join, IndexOf, OwnLabels, NormalPrivilegesOf;
    SortedIsCanonical(want.hosts, got.hosts);
    SortedIsCanonical(want.groups, got.groups);
    SortedIsCanonical(want.capabilityAdd, got.capabilityAdd);
    SortedIsCanonical(want.capabilityDrop, got.capabilityDrop);
    if want.dns.Some? {
      SortedIsCanonical(want.dns.value.nameservers, got.dns.value.nameservers);
      SortedIsCanonical(want.dns.value.search, got.dns.value.search);
      SortedIsCanonical(want.dns.value.options, got.dns.value.options);
    }
  }

  lemma ContainersBack(want: Container, got: Container, image: string)
    requires ContainerBack(want, got, image)
    ensures IndexOf(want.mounts, MountEntry) == IndexOf(got.mounts, MountEntry)
    ensures Joined(FilterMap(want.secrets, SecretEntry)) == Joined(FilterMap(got.secrets, SecretEntry))
    ensures Joined(FilterMap(want.configs, ConfigEntry)) == Joined(FilterMap(got.configs, ConfigEntry))
  {
    hide IndexOf, Joined, FilterMap, Kept, LiteralBack;
    IndexPointwise(want.mounts, got.mounts, MountEntry);
    ReferencesBack(want.secrets, got.secrets, SecretEntry);
    ReferencesBack(want.configs, got.configs, ConfigEntry);
  }

  lemma ListsBack(want: Spec, got: Spec)
    requires ResourcesBack(want.resources, got.resources) && PlacementBack(want.placement, got.placement)
    ensures NormalResourcesOf(want.resources) == NormalResourcesOf(got.resources)
    ensures Sorted(Constraints(want.placement)) == Sorted(Constraints(got.placement))
  {
    hide Sorted, FilterMap, Limits, Reservations, Constraints;
    SortedIsCanonical(Constraints(want.placement), Constraints(got.placement));
    FilterMapPermuted(Reservations(want.resources).generic, Reservations(got.resources).generic, GenericName);
    SortedIsCanonical(GenericNames(Reservations(want.resources).generic), GenericNames(Reservations(got.resources).generic));
  }

  lemma PoliciesBack(want: Spec, got: Spec)
    requires got.update == FilledUpdate(want.update) && got.rollback == FilledUpdate(want.rollback)
    requires RestartBack(want.restart, got.restart) && got.mode == FilledMode(want.mode)
    ensures NormalUpdate(want.update) == NormalUpdate(got.update) && NormalUpdate(want.rollback) == NormalUpdate(got.rollback)
    ensures NormalRestart(want.restart) == NormalRestart(got.restart)
    ensures NormalModeOf(want.mode) == NormalModeOf(got.mode)
  {
  }

  /** Reading back does not change what a spec means. */
  lemma ReadBackIsNormal(want: Spec, got: Spec, nets: Option<map<string, string>>, image: string)
    requires ReadBack(want, got, nets, image)
    ensures NormalOf(want) == NormalOf(got) && NetworksAgree(want, got, nets)
  {
    PoliciesBack(want, got);
    ListsBack(want, got);
    PortsBack(want.endpoint, got.endpoint);
    if want.container.Some? {
      ContainersBack(want.container.value, got.container.value, image);
      LiteralsBack(want.container.value.literal, got.container.value.literal);
    }
    hide Sorted, LiveNetworks;
    var live := LiveNetworks(want, got, nets);
    if live.Some? { SortedIsCanonical(want.networks, live.value); }
    hide IndexOf, Joined, FilterMap, LiteralBack, NormalScalarsOf, NormalCollectionsOf, NormalRuntimeOf, NormalResourcesOf,
      NormalModeOf, NormalUpdate, NormalRestart, PortSet, ResolutionMode, OwnLabels, FilledMode, FilledUpdate, RestartBack,
      ResourcesBack, EndpointBack, Constraints;
    NormalFormsEqual(NormalOf(want), NormalOf(got));
  }

  /** An untouched deploy is silent: whatever the daemon reads back for a spec it
      was sent, with an image that is the manifest's, nothing is reported. */
  lemma UntouchedIsSilent(norm: string -> string, want: Spec, got: Spec, nets: Option<map<string, string>>, image: string)
    requires ReadBack(want, got, nets, image)
    requires want.container.Some? ==> Services.SameImage(norm, image, want.container.value.image)
    ensures Fields(norm, want, got, nets) == []
  {
    ReadBackIsNormal(want, got, nets, image);
    hide ReadBack, NormalOf, NetworksAgree, Fields, Services.SameImage;
    assert ImagesAgree(norm, want, got) by { ImageBack(norm, want, got, nets, image); }
    SilentExactly(norm, want, got, nets);
  }

  lemma ImageBack(norm: string -> string, want: Spec, got: Spec, nets: Option<map<string, string>>, image: string)
    requires ReadBack(want, got, nets, image)
    requires want.container.Some? ==> Services.SameImage(norm, image, want.container.value.image)
    ensures ImagesAgree(norm, want, got)
  {
  }

  /** A declared service runs and reads back as it was deployed. */
  ghost predicate Untouched(norm: string -> string, d: Declared, live: map<string, Running>,
                            nets: Option<map<string, string>>, images: map<string, string>) {
    d.name in live && d.name in images && ReadBack(d.spec, live[d.name].spec, nets, images[d.name]) &&
    (d.spec.container.Some? ==> Services.SameImage(norm, images[d.name], d.spec.container.value.image))
  }

  /** For every stack whose services read back as deployed, and nothing else under
      its label, the report is of no drift. */
  lemma UntouchedStackIsSilent(norm: string -> string, stack: seq<Declared>, live: map<string, Running>,
                               nets: Option<map<string, string>>, images: map<string, string>, extra: seq<string>)
    requires IsExtra(extra, stack, live)
    requires forall n :: n in live ==> exists i :: 0 <= i < |stack| && stack[i].name == n
    requires forall i :: 0 <= i < |stack| ==> Untouched(norm, stack[i], live, nets, images)
    ensures SaidOfAll(norm, stack, live, nets) + Unexpecteds(extra) == []
  {
    hide ReadBack, Services.SameImage, Fields;
    forall i | 0 <= i < |stack| ensures InPlace(norm, stack[i], live, nets) {
      UntouchedIsSilent(norm, stack[i].spec, live[stack[i].name].spec, nets, images[stack[i].name]);
    }
    SilentReport(norm, stack, live, nets, extra);
  }

  /** One correction is a fixpoint. Once a write of the applier's has landed, with
      the image it prepared from this manifest, the next comparison of the service
      reports nothing. */
  lemma CorrectedIsSilent(norm: string -> string, want: Spec, got: Spec, nets: Option<map<string, string>>,
                          stored: Services.Content, sent: Services.Content, applied: Services.Spec)
    requires Services.Normaliser(norm) && Services.ContentStorable(norm, stored)
    requires Services.IsStoredFrom(norm, stored, sent) && Services.Sends(norm, sent, applied) && applied.container != null
    requires want.container.Some? && applied.manifest == want.container.value.image
    requires ReadBack(want, got, nets, stored.image.value)
    ensures Fields(norm, want, got, nets) == []
  {
    Services.CorrectionIsAFixpoint(norm, stored, sent, applied, Services.Always);
    UntouchedIsSilent(norm, want, got, nets, stored.image.value);
  }
}
