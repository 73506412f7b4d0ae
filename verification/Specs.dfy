/** Service specs as the live comparison reads them (drift/live.go).

    A spec read back from the daemon is not the one that was written: defaults are
    filled in, images resolved, networks stored by id and set-like lists reordered.
    Here are the fields that are compared, the normal form each is compared in, and
    the differences reported; a comparison reports nothing exactly when the two
    normal forms agree. */
module Specs {
  import opened Text
  import Installs
  import Services

  // --- what is reported ---

  datatype Value = Shown(text: string) | Num(num: int) | Ratio(ratio: real)

  datatype Field = Field(name: string, desired: Value, live: Value)

  function Differ(name: string, want: Value, got: Value): seq<Field> {
    if want == got then [] else [Field(name, want, got)]
  }

  function Presence(present: bool): Value {
    Shown(if present then "set" else "absent")
  }

  /** A struct that is there on one side only is one difference, not one for every
      field inside it. */
  function DifferInPresence(name: string, want: bool, got: bool): seq<Field> {
    if want == got then [] else [Field(name, Presence(want), Presence(got))]
  }

  function DifferInOrder(name: string, want: seq<string>, got: seq<string>): seq<Field> {
    if want == got then [] else [Field(name, Shown(Join(want, ", ")), Shown(Join(got, ", ")))]
  }

  function DifferAsSet(name: string, want: seq<string>, got: seq<string>): seq<Field> {
    DifferInOrder(name, Sorted(want), Sorted(got))
  }

  /** Keyed values are shown; those of environment variables, and of sets, are not. */
  datatype Rendering = Values | Names

  function OrAbsent(m: map<string, string>, k: string): Value {
    Shown(if k in m then m[k] else "(absent)")
  }

  function KeyedAt(r: Rendering, prefix: string, k: string, want: map<string, string>, got: map<string, string>): seq<Field> {
    if (k in want <==> k in got) && (k in want && k in got ==> want[k] == got[k]) then []
    else
      var name := prefix + "[" + k + "]";
      if r == Values then [Field(name, OrAbsent(want, k), OrAbsent(got, k))]
      else if k in want && k in got then [Field(name, Shown("set"), Shown("changed"))]
      else [Field(name, Presence(k in want), Presence(k in got))]
  }

  /** The differences at a list of keys, in its order. */
  function KeyedOver(ks: seq<string>, r: Rendering, prefix: string, want: map<string, string>, got: map<string, string>): seq<Field> {
    if ks == [] then []
    else KeyedOver(ks[..|ks| - 1], r, prefix, want, got) + KeyedAt(r, prefix, ks[|ks| - 1], want, got)
  }

  ghost function Listed(s: set<string>): (r: seq<string>)
    ensures |r| == |s| && forall x :: x in r <==> x in s
    ensures Distinct(r)
  {
    if s == {} then [] else var x :| x in s; Listed(s - {x}) + [x]
  }

  /** The keys of both maps, sorted. */
  ghost function Union(a: map<string, string>, b: map<string, string>): seq<string> {
    Sorted(Listed(a.Keys + b.Keys))
  }

  ghost function Keyed(r: Rendering, prefix: string, want: map<string, string>, got: map<string, string>): seq<Field> {
    KeyedOver(Union(want, got), r, prefix, want, got)
  }

  lemma {:induction false} KeyedOverIsEmpty(ks: seq<string>, r: Rendering, prefix: string,
                                            want: map<string, string>, got: map<string, string>)
    ensures KeyedOver(ks, r, prefix, want, got) == [] <==> forall k :: k in ks ==> KeyedAt(r, prefix, k, want, got) == []
    decreases |ks|
  {
    if ks != [] {
      var n := |ks| - 1;
      KeyedOverIsEmpty(ks[..n], r, prefix, want, got);
      assert ks == ks[..n] + [ks[n]];
    }
  }

  predicate SameAt(k: string, want: map<string, string>, got: map<string, string>) {
    (k in want <==> k in got) && (k in want && k in got ==> want[k] == got[k])
  }

  lemma KeyedAtIsEmpty(r: Rendering, prefix: string, want: map<string, string>, got: map<string, string>)
    ensures forall k :: KeyedAt(r, prefix, k, want, got) == [] <==> SameAt(k, want, got)
  {
  }

  lemma UnionMembers(a: map<string, string>, b: map<string, string>)
    ensures forall k :: k in Union(a, b) <==> k in a || k in b
  {
    SortedKeepsMembers(Listed(a.Keys + b.Keys));
  }

  lemma SameEverywhere(ks: seq<string>, want: map<string, string>, got: map<string, string>)
    requires forall k :: k in ks <==> k in want || k in got
    ensures (forall k :: k in ks ==> SameAt(k, want, got)) <==> want == got
  {
  }

  /** Two maps are reported alike exactly when they are equal. */
  lemma KeyedIsEmpty(r: Rendering, prefix: string, want: map<string, string>, got: map<string, string>)
    ensures Keyed(r, prefix, want, got) == [] <==> want == got
  {
    hide KeyedAt, KeyedOver, Union, SameAt;
    UnionMembers(want, got);
    KeyedOverIsEmpty(Union(want, got), r, prefix, want, got);
    KeyedAtIsEmpty(r, prefix, want, got);
    SameEverywhere(Union(want, got), want, got);
  }

  /** What one difference of a keyed collection says: at some key the two differ,
      and it shows both values, or only that they are there. */
  ghost predicate Reports(f: Field, r: Rendering, prefix: string, k: string, want: map<string, string>, got: map<string, string>) {
    f.name == prefix + "[" + k + "]" && !SameAt(k, want, got) &&
    match r
    case Values =>
      f.desired == Shown(if k in want then want[k] else "(absent)") && f.live == Shown(if k in got then got[k] else "(absent)")
    case Names =>
      f.desired == Shown(if k in want then "set" else "absent") &&
      f.live == Shown(if k !in got then "absent" else if k in want then "changed" else "set")
  }

  lemma {:induction false} KeyedOverReports(ks: seq<string>, r: Rendering, prefix: string,
                                            want: map<string, string>, got: map<string, string>)
    ensures forall f :: f in KeyedOver(ks, r, prefix, want, got) ==> exists k :: k in ks && Reports(f, r, prefix, k, want, got)
    ensures forall k :: k in ks && !SameAt(k, want, got) ==>
              exists f :: f in KeyedOver(ks, r, prefix, want, got) && Reports(f, r, prefix, k, want, got)
    decreases |ks|
  {
    if ks != [] {
      var n := |ks| - 1;
      KeyedOverReports(ks[..n], r, prefix, want, got);
      KeyedAtReports(ks[n], r, prefix, want, got);
      assert ks == ks[..n] + [ks[n]];
      hide Reports, SameAt, KeyedAt;
    }
  }

  lemma KeyedAtReports(k: string, r: Rendering, prefix: string, want: map<string, string>, got: map<string, string>)
    ensures forall f :: f in KeyedAt(r, prefix, k, want, got) ==> Reports(f, r, prefix, k, want, got)
    ensures !SameAt(k, want, got) ==> exists f :: f in KeyedAt(r, prefix, k, want, got) && Reports(f, r, prefix, k, want, got)
  {
    if !SameAt(k, want, got) {
      assert KeyedAt(r, prefix, k, want, got)[0] in KeyedAt(r, prefix, k, want, got);
    }
  }

  /** Every difference is reported, as what it is, and nothing else is. */
  lemma KeyedReports(r: Rendering, prefix: string, want: map<string, string>, got: map<string, string>)
    ensures forall f :: f in Keyed(r, prefix, want, got) ==> exists k :: Reports(f, r, prefix, k, want, got)
    ensures forall k :: !SameAt(k, want, got) ==> exists f :: f in Keyed(r, prefix, want, got) && Reports(f, r, prefix, k, want, got)
  {
    UnionMembers(want, got);
    KeyedOverReports(Union(want, got), r, prefix, want, got);
    hide KeyedOver, Union, Reports;
  }

  /** The value of an environment variable is never part of a report: two pairs of
      maps that have the same keys and differ at the same ones are reported alike,
      whatever the values are. */
  lemma {:induction false} ValuesAreNotShown(ks: seq<string>, prefix: string, want: map<string, string>, got: map<string, string>,
                                             want': map<string, string>, got': map<string, string>)
    requires want.Keys == want'.Keys && got.Keys == got'.Keys
    requires forall k :: SameAt(k, want, got) <==> SameAt(k, want', got')
    ensures KeyedOver(ks, Names, prefix, want, got) == KeyedOver(ks, Names, prefix, want', got')
    decreases |ks|
  {
    if ks != [] {
      var n := |ks| - 1;
      ValuesAreNotShown(ks[..n], prefix, want, got, want', got');
      assert SameAt(ks[n], want, got) <==> SameAt(ks[n], want', got');
    }
  }

  // --- lists that become maps ---

  datatype Pair = Pair(key: string, value: string)

  /** A list as a map: an entry may have no key, and a later one wins. */
  function IndexOf<T>(xs: seq<T>, entry: T -> Option<Pair>): map<string, string> {
    if xs == [] then map[]
    else
      var before := IndexOf(xs[..|xs| - 1], entry);
      var e := entry(xs[|xs| - 1]);
      if e.None? then before else before[e.value.key := e.value.value]
  }

  function ValueUnder(key: string, p: Pair): Option<string> {
    if p.key == key then Some(p.value) else None
  }

  function ValuesOf(pairs: seq<Pair>, key: string): seq<string> {
    FilterMap(pairs, (p: Pair) => ValueUnder(key, p))
  }

  /** Every value under its key, sorted and joined. */
  function Joined(pairs: seq<Pair>): map<string, string> {
    map k | k in (set i | 0 <= i < |pairs| :: pairs[i].key) :: Join(Sorted(ValuesOf(pairs, k)), ", ")
  }

  // --- specs ---

  datatype Job = Job(maxConcurrent: Option<nat>, totalCompletions: Option<nat>)
  /** Four pointers, of which the first set counts. */
  datatype Mode = Mode(global: bool, job: Option<Job>, globalJob: bool, replicated: Option<Option<nat>>)

  datatype Generic = NamedGeneric(kind: string, value: string) | Discrete(kind: string, count: int) | Neither
  datatype Limit = Limit(nanoCPUs: int, memory: int, pids: int)
  datatype Reserve = Reserve(nanoCPUs: int, memory: int, generic: seq<Generic>)
  datatype Resources = Resources(limits: Option<Limit>, reservations: Option<Reserve>)

  datatype Placement = Placement(constraints: seq<string>, preferences: seq<Option<string>>, maxReplicas: nat)

  datatype Port = Port(published: nat, target: nat, protocol: string, mode: string)
  datatype Endpoint = Endpoint(mode: string, ports: seq<Port>)

  datatype Mount = Mount(kind: string, source: string, target: string, readOnly: bool)
  datatype SecretRef = SecretRef(name: string, file: Option<string>)
  datatype ConfigRef = ConfigRef(name: string, runtime: bool, file: Option<string>)

  datatype Health = Health(test: seq<string>, interval: int, timeout: int, startPeriod: int, startInterval: int, retries: int)
  datatype Update = Update(parallelism: nat, delay: int, failureAction: string, order: string, monitor: int, ratio: real)
  datatype Restart = Restart(condition: string, delay: Option<int>, window: Option<int>, maxAttempts: Option<nat>)
  datatype Driver = Driver(name: string, options: map<string, string>)

  datatype Ulimit = Ulimit(name: string, soft: int, hard: int)
  datatype DNS = DNS(nameservers: seq<string>, search: seq<string>, options: seq<string>)
  datatype Credential = Credential(config: string, file: string, registry: string)
  datatype Seccomp = Seccomp(mode: string, profile: string)
  datatype Selinux = Selinux(disable: bool, user: string, role: string, kind: string, level: string)
  datatype Privileges = Privileges(
    credential: Option<Credential>, noNew: bool, seccomp: Option<Seccomp>, apparmor: Option<string>, selinux: Option<Selinux>)

  /** The container fields a manifest states literally. */
  datatype Literal = Literal(
    command: seq<string>, args: seq<string>, user: string, dir: string, hostname: string, stopSignal: string,
    stopGrace: Option<int>, readOnly: bool, tty: bool, init: Option<bool>,
    hosts: seq<string>, groups: seq<string>, capabilityAdd: seq<string>, capabilityDrop: seq<string>,
    sysctls: map<string, string>, ulimits: seq<Option<Ulimit>>, dns: Option<DNS>,
    openStdin: bool, oomScoreAdj: int, isolation: string, labels: map<string, string>, privileges: Option<Privileges>)

  datatype Container = Container(
    image: string, env: seq<string>, mounts: seq<Mount>,
    secrets: seq<Option<SecretRef>>, configs: seq<Option<ConfigRef>>,
    health: Option<Health>, literal: Literal)

  datatype Spec = Spec(
    mode: Mode, container: Option<Container>, resources: Option<Resources>, placement: Option<Placement>,
    labels: map<string, string>, endpoint: Option<Endpoint>,
    networks: seq<string>, oldNetworks: seq<string>,
    update: Option<Update>, rollback: Option<Update>, restart: Option<Restart>, logDriver: Option<Driver>)

  const NO_LITERAL := Literal([], [], "", "", "", "", None, false, false, None, [], [], [], [], map[], [], None,
                              false, 0, "", map[], None)
  const NO_CONTAINER := Container("", [], [], [], [], None, NO_LITERAL)

  function ContainerOf(s: Spec): Container {
    if s.container.None? then NO_CONTAINER else s.container.value
  }

  // --- normalisers ---

  function OrElse<T>(o: Option<T>, otherwise: T): T {
    if o.None? then otherwise else o.value
  }

  function NonEmpty(s: string, otherwise: string): string {
    if s == "" then otherwise else s
  }

  /** strconv.FormatInt. */
  function Decimal(n: int): string
    decreases if n < 0 then 1 - n else n
  {
    if n < 0 then "-" + Decimal(-n)
    else if n < 10 then [('0' as int + n) as char]
    else Decimal(n / 10) + [('0' as int + n % 10) as char]
  }

  function ModeKind(m: Mode): string {
    if m.global then "global"
    else if m.job.Some? then "replicated-job"
    else if m.globalJob then "global-job"
    else "replicated"
  }

  function Replicas(m: Mode): nat {
    if m.replicated.None? then 1 else OrElse(m.replicated.value, 1)
  }

  function MaxConcurrent(j: Job): nat {
    OrElse(j.maxConcurrent, 1)
  }

  function TotalCompletions(j: Job): nat {
    OrElse(j.totalCompletions, MaxConcurrent(j))
  }

  function Limits(r: Option<Resources>): Limit {
    if r.None? then Limit(0, 0, 0) else OrElse(r.value.limits, Limit(0, 0, 0))
  }

  function Reservations(r: Option<Resources>): Reserve {
    if r.None? then Reserve(0, 0, []) else OrElse(r.value.reservations, Reserve(0, 0, []))
  }

  function GenericName(g: Generic): Option<string> {
    match g
    case NamedGeneric(kind, value) => Some(kind + "=" + value)
    case Discrete(kind, count) => Some(kind + "=" + Decimal(count))
    case Neither => None
  }

  function GenericNames(gs: seq<Generic>): seq<string> {
    FilterMap(gs, GenericName)
  }

  /** "KEY=value"; without "=" the whole is a name. */
  function CutAt(s: string, c: char): Pair {
    if s == "" then Pair("", "")
    else if s[0] == c then Pair("", s[1..])
    else var rest := CutAt(s[1..], c); Pair([s[0]] + rest.key, rest.value)
  }

  function EnvEntry(e: string): Option<Pair> {
    Some(CutAt(e, '='))
  }

  function Constraints(p: Option<Placement>): seq<string> {
    if p.None? then [] else p.value.constraints
  }

  function Preferences(p: Option<Placement>): seq<string> {
    if p.None? then [] else Spreads(p.value.preferences)
  }

  function Spread(p: Option<string>): Option<string> {
    p
  }

  function Spreads(ps: seq<Option<string>>): seq<string> {
    FilterMap(ps, Spread)
  }

  function MaxReplicas(p: Option<Placement>): nat {
    if p.None? then 0 else p.value.maxReplicas
  }

  const LABEL_IMAGE := "com.docker.stack.image"

  /** A stack's own two labels are not the operator's. */
  function OwnLabels(labels: map<string, string>): map<string, string> {
    labels - {Installs.LABEL_NAMESPACE, LABEL_IMAGE}
  }

  function PortKey(p: Port): string {
    (if p.published == 0 then "dynamic" else Decimal(p.published)) + ":" + Decimal(p.target) + "/" +
    NonEmpty(p.protocol, "tcp") + "/" + NonEmpty(p.mode, "ingress")
  }

  function PortEntry(p: Port): Option<Pair> {
    Some(Pair(PortKey(p), ""))
  }

  function PortSet(e: Option<Endpoint>): map<string, string> {
    if e.None? then map[] else IndexOf(e.value.ports, PortEntry)
  }

  function ResolutionMode(e: Option<Endpoint>): string {
    if e.None? then "vip" else NonEmpty(e.value.mode, "vip")
  }

  function MountEntry(m: Mount): Option<Pair> {
    Some(Pair(m.target, NonEmpty(m.kind, "bind") + ":" + NonEmpty(m.source, "(anonymous)") +
                        if m.readOnly then " (read-only)" else ""))
  }

  function SecretEntry(r: Option<SecretRef>): Option<Pair> {
    if r.None? || r.value.file.None? then None else Some(Pair(r.value.name, r.value.file.value))
  }

  function ConfigEntry(r: Option<ConfigRef>): Option<Pair> {
    if r.None? then None
    else if r.value.runtime then Some(Pair(r.value.name, "(runtime)"))
    else if r.value.file.Some? then Some(Pair(r.value.name, r.value.file.value))
    else None
  }

  function UlimitEntry(u: Option<Ulimit>): Option<Pair> {
    if u.None? then None else Some(Pair(u.value.name, Decimal(u.value.soft) + ":" + Decimal(u.value.hard)))
  }

  function FailureAction(u: Update): string {
    NonEmpty(u.failureAction, "pause")
  }

  function UpdateOrder(u: Update): string {
    NonEmpty(u.order, "stop-first")
  }

  function OptionalBool(b: Option<bool>): string {
    if b.None? then "(unset)" else if b.value then "true" else "false"
  }

  function Bool(b: bool): Value {
    Shown(if b then "true" else "false")
  }

  function CredentialOf(c: Option<Credential>): string {
    if c.None? then ""
    else if c.value.config != "" then "config=" + c.value.config
    else if c.value.file != "" then "file=" + c.value.file
    else if c.value.registry != "" then "registry=" + c.value.registry
    else ""
  }

  function SeccompOf(s: Option<Seccomp>): string {
    if s.None? then "" else s.value.mode + if s.value.profile != "" then " (custom profile)" else ""
  }

  function SelinuxOf(s: Option<Selinux>): string {
    if s.None? then ""
    else if s.value.disable then "disabled"
    else Join([s.value.user, s.value.role, s.value.kind, s.value.level], ":")
  }

  // --- the comparisons ---

  function ModeFields(want: Mode, got: Mode): seq<Field> {
    if ModeKind(want) != ModeKind(got) then [Field("mode", Shown(ModeKind(want)), Shown(ModeKind(got)))]
    else if ModeKind(want) == "replicated" then Differ("replicas", Num(Replicas(want)), Num(Replicas(got)))
    else if ModeKind(want) == "replicated-job" && want.job.Some? && got.job.Some? then
      Differ("maxConcurrent", Num(MaxConcurrent(want.job.value)), Num(MaxConcurrent(got.job.value))) +
      Differ("totalCompletions", Num(TotalCompletions(want.job.value)), Num(TotalCompletions(got.job.value)))
    else []
  }

  function ImageFields(norm: string -> string, want: Container, got: Container): seq<Field> {
    if want.image == "" || Services.SameImage(norm, got.image, want.image) then []
    else [Field("image", Shown(want.image), Shown(got.image))]
  }

  function ResourceFields(want: Option<Resources>, got: Option<Resources>): seq<Field> {
    Differ("resources.limits.nanoCPUs", Num(Limits(want).nanoCPUs), Num(Limits(got).nanoCPUs)) +
    Differ("resources.limits.memoryBytes", Num(Limits(want).memory), Num(Limits(got).memory)) +
    Differ("resources.limits.pids", Num(Limits(want).pids), Num(Limits(got).pids)) +
    Differ("resources.reservations.nanoCPUs", Num(Reservations(want).nanoCPUs), Num(Reservations(got).nanoCPUs)) +
    Differ("resources.reservations.memoryBytes", Num(Reservations(want).memory), Num(Reservations(got).memory)) +
    DifferAsSet("resources.reservations.genericResources",
      GenericNames(Reservations(want).generic), GenericNames(Reservations(got).generic))
  }

  /** The networks both sides can name, None when that cannot be settled: the
      swarm's could not be listed, an id has no name, or a spec uses the old field. */
  function LiveNetworks(want: Spec, got: Spec, nets: Option<map<string, string>>): Option<seq<string>> {
    if nets.None? || want.oldNetworks != [] || got.oldNetworks != [] then None
    else Resolved(got.networks, nets.value)
  }

  function Resolved(ids: seq<string>, nets: map<string, string>): Option<seq<string>> {
    if ids == [] then Some([])
    else
      var before, last := Resolved(ids[..|ids| - 1], nets), ids[|ids| - 1];
      if before.None? || last !in nets then None else Some(before.value + [nets[last]])
  }

  function NetworkFields(want: Spec, got: Spec, nets: Option<map<string, string>>): seq<Field> {
    var live := LiveNetworks(want, got, nets);
    if live.None? then [] else DifferAsSet("networks", want.networks, live.value)
  }

  function HealthFields(want: Option<Health>, got: Option<Health>): seq<Field> {
    if want.None? || got.None? then DifferInPresence("healthcheck", want.Some?, got.Some?)
    else
      var w, g := want.value, got.value;
      Differ("healthcheck.test", Shown(Join(w.test, " ")), Shown(Join(g.test, " "))) +
      Differ("healthcheck.interval", Num(w.interval), Num(g.interval)) +
      Differ("healthcheck.timeout", Num(w.timeout), Num(g.timeout)) +
      Differ("healthcheck.startPeriod", Num(w.startPeriod), Num(g.startPeriod)) +
      Differ("healthcheck.startInterval", Num(w.startInterval), Num(g.startInterval)) +
      Differ("healthcheck.retries", Num(w.retries), Num(g.retries))
  }

  function UpdateFields(prefix: string, want: Option<Update>, got: Option<Update>): seq<Field> {
    if want.None? || got.None? then DifferInPresence(prefix, want.Some?, got.Some?)
    else
      var w, g := want.value, got.value;
      Differ(prefix + ".parallelism", Num(w.parallelism), Num(g.parallelism)) +
      Differ(prefix + ".delay", Num(w.delay), Num(g.delay)) +
      Differ(prefix + ".failureAction", Shown(FailureAction(w)), Shown(FailureAction(g))) +
      Differ(prefix + ".order", Shown(UpdateOrder(w)), Shown(UpdateOrder(g))) +
      Differ(prefix + ".monitor", Num(w.monitor), Num(g.monitor)) +
      Differ(prefix + ".maxFailureRatio", Ratio(w.ratio), Ratio(g.ratio))
  }

  function RestartFields(want: Option<Restart>, got: Option<Restart>): seq<Field> {
    if want.None? || got.None? then DifferInPresence("restartPolicy", want.Some?, got.Some?)
    else
      var w, g := want.value, got.value;
      Differ("restartPolicy.condition", Shown(NonEmpty(w.condition, "any")), Shown(NonEmpty(g.condition, "any"))) +
      Differ("restartPolicy.delay", Num(OrElse(w.delay, 0)), Num(OrElse(g.delay, 0))) +
      Differ("restartPolicy.window", Num(OrElse(w.window, 0)), Num(OrElse(g.window, 0))) +
      Differ("restartPolicy.maxAttempts", Num(OrElse(w.maxAttempts, 0)), Num(OrElse(g.maxAttempts, 0)))
  }

  function PlacementFields(want: Option<Placement>, got: Option<Placement>): seq<Field> {
    DifferInOrder("placement.preferences", Preferences(want), Preferences(got)) +
    Differ("placement.maxReplicas", Num(MaxReplicas(want)), Num(MaxReplicas(got)))
  }

  ghost function DriverFields(want: Option<Driver>, got: Option<Driver>): seq<Field> {
    if want.None? || got.None? then DifferInPresence("logDriver", want.Some?, got.Some?)
    else
      Differ("logDriver.name", Shown(want.value.name), Shown(got.value.name)) +
      Keyed(Values, "logDriver.options", want.value.options, got.value.options)
  }

  function DNSFields(want: Option<DNS>, got: Option<DNS>): seq<Field> {
    if want.None? || got.None? then DifferInPresence("dns", want.Some?, got.Some?)
    else
      DifferAsSet("dns.nameservers", want.value.nameservers, got.value.nameservers) +
      DifferAsSet("dns.search", want.value.search, got.value.search) +
      DifferAsSet("dns.options", want.value.options, got.value.options)
  }

  function PrivilegeFields(want: Option<Privileges>, got: Option<Privileges>): seq<Field> {
    if want.None? || got.None? then DifferInPresence("privileges", want.Some?, got.Some?)
    else
      var w, g := want.value, got.value;
      Differ("privileges.credentialSpec", Shown(CredentialOf(w.credential)), Shown(CredentialOf(g.credential))) +
      Differ("privileges.noNewPrivileges", Bool(w.noNew), Bool(g.noNew)) +
      Differ("privileges.seccomp", Shown(SeccompOf(w.seccomp)), Shown(SeccompOf(g.seccomp))) +
      Differ("privileges.apparmor", Shown(OrElse(w.apparmor, "")), Shown(OrElse(g.apparmor, ""))) +
      Differ("privileges.selinux", Shown(SelinuxOf(w.selinux)), Shown(SelinuxOf(g.selinux)))
  }

  function ScalarFields(w: Literal, g: Literal): seq<Field> {
    Differ("command", Shown(Join(w.command, " ")), Shown(Join(g.command, " "))) +
    Differ("args", Shown(Join(w.args, " ")), Shown(Join(g.args, " "))) +
    Differ("user", Shown(w.user), Shown(g.user)) +
    Differ("workingDir", Shown(w.dir), Shown(g.dir)) +
    Differ("hostname", Shown(w.hostname), Shown(g.hostname)) +
    Differ("stopSignal", Shown(w.stopSignal), Shown(g.stopSignal)) +
    Differ("stopGracePeriod", Num(OrElse(w.stopGrace, 0)), Num(OrElse(g.stopGrace, 0))) +
    Differ("readOnly", Bool(w.readOnly), Bool(g.readOnly)) +
    Differ("tty", Bool(w.tty), Bool(g.tty)) +
    Differ("init", Shown(OptionalBool(w.init)), Shown(OptionalBool(g.init)))
  }

  ghost function CollectionFields(w: Literal, g: Literal): seq<Field> {
    DifferAsSet("hosts", w.hosts, g.hosts) +
    DifferAsSet("groups", w.groups, g.groups) +
    DifferAsSet("capabilityAdd", w.capabilityAdd, g.capabilityAdd) +
    DifferAsSet("capabilityDrop", w.capabilityDrop, g.capabilityDrop) +
    Keyed(Values, "sysctls", w.sysctls, g.sysctls) +
    Keyed(Values, "ulimits", IndexOf(w.ulimits, UlimitEntry), IndexOf(g.ulimits, UlimitEntry)) +
    DNSFields(w.dns, g.dns)
  }

  ghost function RuntimeFields(w: Literal, g: Literal): seq<Field> {
    Differ("openStdin", Bool(w.openStdin), Bool(g.openStdin)) +
    Differ("oomScoreAdj", Num(w.oomScoreAdj), Num(g.oomScoreAdj)) +
    Differ("isolation", Shown(NonEmpty(w.isolation, "default")), Shown(NonEmpty(g.isolation, "default"))) +
    Keyed(Values, "containerLabels", OwnLabels(w.labels), OwnLabels(g.labels)) +
    PrivilegeFields(w.privileges, g.privileges)
  }

  ghost function WorkloadFields(norm: string -> string, want: Spec, got: Spec): seq<Field> {
    var w, g := ContainerOf(want), ContainerOf(got);
    ModeFields(want.mode, got.mode) +
    ImageFields(norm, w, g) +
    ResourceFields(want.resources, got.resources) +
    Keyed(Names, "env", IndexOf(w.env, EnvEntry), IndexOf(g.env, EnvEntry)) +
    DifferAsSet("constraints", Constraints(want.placement), Constraints(got.placement))
  }

  ghost function AccessFields(want: Spec, got: Spec, nets: Option<map<string, string>>): seq<Field> {
    var w, g := ContainerOf(want), ContainerOf(got);
    Keyed(Values, "labels", OwnLabels(want.labels), OwnLabels(got.labels)) +
    Keyed(Names, "ports", PortSet(want.endpoint), PortSet(got.endpoint)) +
    Differ("endpointMode", Shown(ResolutionMode(want.endpoint)), Shown(ResolutionMode(got.endpoint))) +
    NetworkFields(want, got, nets) +
    Keyed(Values, "mounts", IndexOf(w.mounts, MountEntry), IndexOf(g.mounts, MountEntry)) +
    Keyed(Values, "secrets", Joined(FilterMap(w.secrets, SecretEntry)), Joined(FilterMap(g.secrets, SecretEntry))) +
    Keyed(Values, "configs", Joined(FilterMap(w.configs, ConfigEntry)), Joined(FilterMap(g.configs, ConfigEntry)))
  }

  function PolicyFields(want: Spec, got: Spec): seq<Field> {
    HealthFields(ContainerOf(want).health, ContainerOf(got).health) +
    UpdateFields("updateConfig", want.update, got.update) +
    UpdateFields("rollbackConfig", want.rollback, got.rollback) +
    RestartFields(want.restart, got.restart) +
    PlacementFields(want.placement, got.placement)
  }

  ghost function ContainerFields(want: Spec, got: Spec): seq<Field> {
    var w, g := ContainerOf(want).literal, ContainerOf(got).literal;
    ScalarFields(w, g) + CollectionFields(w, g) + RuntimeFields(w, g) + DriverFields(want.logDriver, got.logDriver)
  }

  /** compareService before the cap: every difference, in the order compared. */
  ghost function Fields(norm: string -> string, want: Spec, got: Spec, nets: Option<map<string, string>>): seq<Field> {
    WorkloadFields(norm, want, got) + AccessFields(want, got, nets) + PolicyFields(want, got) + ContainerFields(want, got)
  }

  // --- normal forms ---

  datatype NormalMode = Counted(replicas: nat) | Counts(maxConcurrent: nat, totalCompletions: nat) | Plain(kind: string)

  function NormalModeOf(m: Mode): NormalMode {
    if ModeKind(m) == "replicated" then Counted(Replicas(m))
    else if ModeKind(m) == "replicated-job" then Counts(MaxConcurrent(m.job.value), TotalCompletions(m.job.value))
    else Plain(ModeKind(m))
  }

  datatype NormalResources = NormalResources(limits: Limit, nanoCPUs: int, memory: int, generic: seq<string>)

  function NormalResourcesOf(r: Option<Resources>): NormalResources {
    NormalResources(Limits(r), Reservations(r).nanoCPUs, Reservations(r).memory, Sorted(GenericNames(Reservations(r).generic)))
  }

  function NormalHealth(h: Option<Health>): Option<Health> {
    if h.None? then None else Some(h.value.(test := [Join(h.value.test, " ")]))
  }

  function NormalUpdate(u: Option<Update>): Option<Update> {
    if u.None? then None else Some(u.value.(failureAction := FailureAction(u.value), order := UpdateOrder(u.value)))
  }

  function NormalRestart(r: Option<Restart>): Option<Restart> {
    if r.None? then None
    else Some(Restart(NonEmpty(r.value.condition, "any"), Some(OrElse(r.value.delay, 0)), Some(OrElse(r.value.window, 0)),
                      Some(OrElse(r.value.maxAttempts, 0))))
  }

  function NormalDNS(d: Option<DNS>): Option<DNS> {
    if d.None? then None else Some(DNS(Sorted(d.value.nameservers), Sorted(d.value.search), Sorted(d.value.options)))
  }

  datatype NormalPrivileges = NormalPrivileges(credential: string, noNew: bool, seccomp: string, apparmor: string, selinux: string)

  function NormalPrivilegesOf(p: Option<Privileges>): Option<NormalPrivileges> {
    if p.None? then None
    else Some(NormalPrivileges(CredentialOf(p.value.credential), p.value.noNew, SeccompOf(p.value.seccomp),
                               OrElse(p.value.apparmor, ""), SelinuxOf(p.value.selinux)))
  }

  datatype NormalScalars = NormalScalars(
    command: string, args: string, user: string, dir: string, hostname: string, stopSignal: string,
    stopGrace: int, readOnly: bool, tty: bool, init: Option<bool>)

  function NormalScalarsOf(l: Literal): NormalScalars {
    NormalScalars(Join(l.command, " "), Join(l.args, " "), l.user, l.dir, l.hostname, l.stopSignal,
                  OrElse(l.stopGrace, 0), l.readOnly, l.tty, l.init)
  }

  datatype NormalCollections = NormalCollections(
    hosts: seq<string>, groups: seq<string>, capabilityAdd: seq<string>, capabilityDrop: seq<string>,
    sysctls: map<string, string>, ulimits: map<string, string>, dns: Option<DNS>)

  function NormalCollectionsOf(l: Literal): NormalCollections {
    NormalCollections(Sorted(l.hosts), Sorted(l.groups), Sorted(l.capabilityAdd), Sorted(l.capabilityDrop),
                      l.sysctls, IndexOf(l.ulimits, UlimitEntry), NormalDNS(l.dns))
  }

  datatype NormalRuntime = NormalRuntime(
    openStdin: bool, oomScoreAdj: int, isolation: string, labels: map<string, string>, privileges: Option<NormalPrivileges>)

  function NormalRuntimeOf(l: Literal): NormalRuntime {
    NormalRuntime(l.openStdin, l.oomScoreAdj, NonEmpty(l.isolation, "default"), OwnLabels(l.labels), NormalPrivilegesOf(l.privileges))
  }

  /** What a spec means to the comparison, its image and its networks apart. */
  datatype Normal = Normal(
    mode: NormalMode, resources: NormalResources, env: map<string, string>,
    constraints: seq<string>, labels: map<string, string>, ports: map<string, string>, endpointMode: string,
    mounts: map<string, string>, secrets: map<string, string>, configs: map<string, string>,
    health: Option<Health>, update: Option<Update>, rollback: Option<Update>, restart: Option<Restart>,
    preferences: seq<string>, maxReplicas: nat,
    scalars: NormalScalars, collections: NormalCollections, runtime: NormalRuntime, logDriver: Option<Driver>)

  function NormalOf(s: Spec): Normal {
    var c := ContainerOf(s);
    Normal(
      NormalModeOf(s.mode), NormalResourcesOf(s.resources), IndexOf(c.env, EnvEntry),
      Sorted(Constraints(s.placement)), OwnLabels(s.labels), PortSet(s.endpoint), ResolutionMode(s.endpoint),
      IndexOf(c.mounts, MountEntry), Joined(FilterMap(c.secrets, SecretEntry)), Joined(FilterMap(c.configs, ConfigEntry)),
      NormalHealth(c.health), NormalUpdate(s.update), NormalUpdate(s.rollback), NormalRestart(s.restart),
      Preferences(s.placement), MaxReplicas(s.placement),
      NormalScalarsOf(c.literal), NormalCollectionsOf(c.literal), NormalRuntimeOf(c.literal), s.logDriver)
  }

  /** The live image is the desired one, or none is desired. */
  predicate ImagesAgree(norm: string -> string, want: Spec, got: Spec) {
    ContainerOf(want).image == "" || Services.SameImage(norm, ContainerOf(got).image, ContainerOf(want).image)
  }

  /** The attached networks are the desired ones, or cannot be named. */
  predicate NetworksAgree(want: Spec, got: Spec, nets: Option<map<string, string>>) {
    var live := LiveNetworks(want, got, nets);
    live.None? || Sorted(want.networks) == Sorted(live.value)
  }

  lemma ModesAgree(want: Mode, got: Mode)
    ensures ModeFields(want, got) == [] <==> NormalModeOf(want) == NormalModeOf(got)
  {
  }

  lemma ResourcesAgree(want: Option<Resources>, got: Option<Resources>)
    ensures ResourceFields(want, got) == [] <==> NormalResourcesOf(want) == NormalResourcesOf(got)
  {
  }

  lemma StructsAgree(want: Spec, got: Spec)
    ensures UpdateFields("updateConfig", want.update, got.update) == [] <==> NormalUpdate(want.update) == NormalUpdate(got.update)
    ensures UpdateFields("rollbackConfig", want.rollback, got.rollback) == [] <==> NormalUpdate(want.rollback) == NormalUpdate(got.rollback)
    ensures RestartFields(want.restart, got.restart) == [] <==> NormalRestart(want.restart) == NormalRestart(got.restart)
  {
  }

  lemma HealthAgrees(want: Option<Health>, got: Option<Health>)
    ensures HealthFields(want, got) == [] <==> NormalHealth(want) == NormalHealth(got)
  {
  }

  lemma DriversAgree(want: Option<Driver>, got: Option<Driver>)
    ensures DriverFields(want, got) == [] <==> want == got
  {
    hide Keyed;
    if want.Some? && got.Some? {
      KeyedIsEmpty(Values, "logDriver.options", want.value.options, got.value.options);
    }
  }

  lemma PlacementsAgree(want: Option<Placement>, got: Option<Placement>)
    ensures PlacementFields(want, got) == [] <==> Preferences(want) == Preferences(got) && MaxReplicas(want) == MaxReplicas(got)
  {
  }

  lemma ScalarsAgree(w: Literal, g: Literal)
    ensures ScalarFields(w, g) == [] <==> NormalScalarsOf(w) == NormalScalarsOf(g)
  {
  }

  lemma CollectionsAgree(w: Literal, g: Literal)
    ensures CollectionFields(w, g) == [] <==> NormalCollectionsOf(w) == NormalCollectionsOf(g)
  {
    hide Join, Sorted, Keyed, IndexOf, DNSFields, NormalDNS;
    KeyedIsEmpty(Values, "sysctls", w.sysctls, g.sysctls);
    KeyedIsEmpty(Values, "ulimits", IndexOf(w.ulimits, UlimitEntry), IndexOf(g.ulimits, UlimitEntry));
    DNSAgrees(w.dns, g.dns);
  }

  lemma DNSAgrees(want: Option<DNS>, got: Option<DNS>)
    ensures DNSFields(want, got) == [] <==> NormalDNS(want) == NormalDNS(got)
  {
  }

  lemma PrivilegesAgree(want: Option<Privileges>, got: Option<Privileges>)
    ensures PrivilegeFields(want, got) == [] <==> NormalPrivilegesOf(want) == NormalPrivilegesOf(got)
  {
  }

  lemma RuntimesAgree(w: Literal, g: Literal)
    ensures RuntimeFields(w, g) == [] <==> NormalRuntimeOf(w) == NormalRuntimeOf(g)
  {
    hide Keyed, OwnLabels, PrivilegeFields, NormalPrivilegesOf;
    KeyedIsEmpty(Values, "containerLabels", OwnLabels(w.labels), OwnLabels(g.labels));
    PrivilegesAgree(w.privileges, g.privileges);
  }

  lemma WorkloadsAgree(norm: string -> string, want: Spec, got: Spec)
    ensures var a, b := NormalOf(want), NormalOf(got);
            WorkloadFields(norm, want, got) == [] <==>
            a.mode == b.mode && a.resources == b.resources && a.env == b.env && a.constraints == b.constraints &&
            ImagesAgree(norm, want, got)
  {
    hide Keyed, ModeFields, ResourceFields, NormalModeOf, NormalResourcesOf, IndexOf, Join, Sorted, Services.SameImage, Constraints;
    var w, g := ContainerOf(want), ContainerOf(got);
    ModesAgree(want.mode, got.mode);
    ResourcesAgree(want.resources, got.resources);
    KeyedIsEmpty(Names, "env", IndexOf(w.env, EnvEntry), IndexOf(g.env, EnvEntry));
  }

  lemma AccessAgrees(want: Spec, got: Spec, nets: Option<map<string, string>>)
    ensures var a, b := NormalOf(want), NormalOf(got);
            AccessFields(want, got, nets) == [] <==>
            a.labels == b.labels && a.ports == b.ports && a.endpointMode == b.endpointMode && a.mounts == b.mounts &&
            a.secrets == b.secrets && a.configs == b.configs && NetworksAgree(want, got, nets)
  {
    hide Keyed, IndexOf, OwnLabels, PortSet, Joined, FilterMap, ResolutionMode, LiveNetworks, Join, Sorted;
    var w, g := ContainerOf(want), ContainerOf(got);
    KeyedIsEmpty(Values, "labels", OwnLabels(want.labels), OwnLabels(got.labels));
    KeyedIsEmpty(Names, "ports", PortSet(want.endpoint), PortSet(got.endpoint));
    KeyedIsEmpty(Values, "mounts", IndexOf(w.mounts, MountEntry), IndexOf(g.mounts, MountEntry));
    KeyedIsEmpty(Values, "secrets", Joined(FilterMap(w.secrets, SecretEntry)), Joined(FilterMap(g.secrets, SecretEntry)));
    KeyedIsEmpty(Values, "configs", Joined(FilterMap(w.configs, ConfigEntry)), Joined(FilterMap(g.configs, ConfigEntry)));
  }

  lemma PoliciesAgree(want: Spec, got: Spec)
    ensures var a, b := NormalOf(want), NormalOf(got);
            PolicyFields(want, got) == [] <==>
            a.health == b.health && a.update == b.update && a.rollback == b.rollback && a.restart == b.restart &&
            a.preferences == b.preferences && a.maxReplicas == b.maxReplicas
  {
    hide HealthFields, NormalHealth, UpdateFields, NormalUpdate, RestartFields, NormalRestart, PlacementFields, Preferences, MaxReplicas;
    HealthAgrees(ContainerOf(want).health, ContainerOf(got).health);
    StructsAgree(want, got);
    PlacementsAgree(want.placement, got.placement);
  }

  lemma ContainersAgree(want: Spec, got: Spec)
    ensures var a, b := NormalOf(want), NormalOf(got);
            ContainerFields(want, got) == [] <==>
            a.scalars == b.scalars && a.collections == b.collections && a.runtime == b.runtime && a.logDriver == b.logDriver
  {
    hide ScalarFields, NormalScalarsOf, CollectionFields, NormalCollectionsOf, RuntimeFields, NormalRuntimeOf, DriverFields;
    var w, g := ContainerOf(want).literal, ContainerOf(got).literal;
    ScalarsAgree(w, g);
    CollectionsAgree(w, g);
    RuntimesAgree(w, g);
    DriversAgree(want.logDriver, got.logDriver);
  }

  lemma NormalFormsEqual(a: Normal, b: Normal)
    ensures a == b <==>
            a.mode == b.mode && a.resources == b.resources && a.env == b.env && a.constraints == b.constraints &&
            a.labels == b.labels && a.ports == b.ports && a.endpointMode == b.endpointMode && a.mounts == b.mounts &&
            a.secrets == b.secrets && a.configs == b.configs &&
            a.health == b.health && a.update == b.update && a.rollback == b.rollback && a.restart == b.restart &&
            a.preferences == b.preferences && a.maxReplicas == b.maxReplicas &&
            a.scalars == b.scalars && a.collections == b.collections && a.runtime == b.runtime && a.logDriver == b.logDriver
  {
  }

  /** A comparison is empty exactly when the two specs have one normal form, their
      images are the same reference, and their networks agree as far as they can
      be named. */
  lemma SilentExactly(norm: string -> string, want: Spec, got: Spec, nets: Option<map<string, string>>)
    ensures Fields(norm, want, got, nets) == [] <==>
            NormalOf(want) == NormalOf(got) && ImagesAgree(norm, want, got) && NetworksAgree(want, got, nets)
  {
    hide WorkloadFields, AccessFields, PolicyFields, ContainerFields, NormalOf, ImagesAgree, NetworksAgree;
    WorkloadsAgree(norm, want, got);
    AccessAgrees(want, got, nets);
    PoliciesAgree(want, got);
    ContainersAgree(want, got);
    NormalFormsEqual(NormalOf(want), NormalOf(got));
  }
}
