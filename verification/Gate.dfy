/** What a stack may reach outside itself for (backend/backend.go,
    rejectForbiddenResources, and backend/allowaudit.go, UnpermittedNames).

    The gate refuses a deploy; the audit says what an application's allowlist
    lacks. They are two traversals of one converted stack, written apart, and this
    module proves that they agree: what the audit returns is the least addition
    that makes the gate accept. */
module Gate {
  import opened Text
  import opened Names
  import Installs

  const RESERVED_PREFIX := "com.swarmcli."

  // --- the converted stack and the swarm it meets ---

  datatype MountKind = VolumeMount | ClusterMount | OtherMount
  datatype Driver = Driver(name: string, options: nat)
  datatype VolumeOptions = VolumeOptions(namespace: string, driver: Option<Driver>)
  datatype Mount = Mount(kind: MountKind, source: string, options: Option<VolumeOptions>)
  datatype Container = Container(secrets: seq<string>, configs: seq<string>, mounts: seq<Mount>)
  datatype Service = Service(name: string, container: Option<Container>)
  datatype Named = Named(name: string, labels: map<string, string>)

  datatype Stack = Stack(
    ns: string,
    services: seq<Service>,
    secrets: seq<Named>,
    configs: seq<Named>,
    externalSecrets: seq<Named>,
    externalConfigs: seq<Named>,
    networks: seq<string>,
    externalNetworks: seq<string>)

  /** Reading what holds a name: the daemon may fail to say. */
  datatype Lookup = Absent | Held(labels: map<string, string>) | ReadFailed

  /** The swarm as one deploy finds it. A volume's holder is the namespace label
      of the node-local volume of that name, "" for none. Release records are
      named in lower case; None is a listing that failed. */
  datatype Swarm = Swarm(
    secretHeld: string -> Lookup,
    configHeld: string -> Lookup,
    volumeHolder: string -> Option<string>,
    records: Option<set<string>>,
    networks: Option<seq<Named>>)

  /** What this controller has mounted, and the stack it runs as. */
  datatype Controller = Controller(
    self: bool,
    wired: set<string>,
    namespace: string,
    secrets: set<string>,
    configs: set<string>,
    volumes: set<string>)

  datatype Allow = Allow(secrets: seq<string>, configs: seq<string>, volumes: seq<string>, networks: seq<string>)

  datatype Context = Context(stack: Stack, swarm: Swarm, mine: Controller)

  datatype Kind = Secret | Config | Volume

  datatype Refusal =
    | ReservedExternal(kind: Kind, name: string)
    | ReservedLabel(kind: Kind, name: string)
    | MountsForbidden(service: string, kind: Kind, name: string)
    | MountsUnpermitted(service: string, kind: Kind, name: string)
    | MountsForeignVolume(service: string, name: string)
    | MountsHeldVolume(service: string, name: string, holder: string)
    | MountsDriverUnpermitted(service: string, name: string)
    | DeclaresForbidden(kind: Kind, name: string)
    | DeclaresUnpermitted(kind: Kind, name: string)
    | JoinsForbidden(name: string)
    | JoinsUnpermitted(name: string)
    | DeclaresHeldNetwork(name: string)

  datatype Verdict = Pass | Unread | Refused(refusal: Refusal)

  // --- small questions both traversals ask ---

  predicate HasReservedLabel(labels: map<string, string>) {
    exists k :: k in labels && RESERVED_PREFIX <= k
  }

  predicate NamedLikeARecord(name: string) {
    Installs.RECORD_PREFIX <= Fold(name)
  }

  predicate InControllersStack(namespace: string, name: string) {
    namespace != "" && (name == namespace || ScopedUnder(namespace, name))
  }

  predicate DeclaredIn(list: seq<Named>, name: string) {
    exists i :: 0 <= i < |list| && list[i].name == name
  }

  function Undeclared(list: seq<Named>, refs: seq<string>): (r: seq<string>)
    ensures forall n :: n in r <==> n in refs && !DeclaredIn(list, n)
  {
    if refs == [] then []
    else (if DeclaredIn(list, refs[0]) then [] else [refs[0]]) + Undeclared(list, refs[1..])
  }

  /** externalRefs: what a service references that the stack does not declare. */
  function ExternalSecrets(stack: Stack, svc: Service): seq<string> {
    if svc.container.None? then [] else Undeclared(stack.secrets, svc.container.value.secrets)
  }

  function ExternalConfigs(stack: Stack, svc: Service): seq<string> {
    if svc.container.None? then [] else Undeclared(stack.configs, svc.container.value.configs)
  }

  function VolumesAmong(mounts: seq<Mount>): seq<Mount> {
    if mounts == [] then []
    else (if !mounts[0].kind.OtherMount? && mounts[0].source != "" then [mounts[0]] else []) + VolumesAmong(mounts[1..])
  }

  function VolumeSources(svc: Service): seq<Mount> {
    if svc.container.None? then [] else VolumesAmong(svc.container.value.mounts)
  }

  predicate CreatesVolume(m: Mount) {
    m.options.Some? && m.options.value.namespace != ""
  }

  predicate Driven(m: Mount) {
    m.kind.VolumeMount? && m.options.Some? && m.options.value.driver.Some? &&
    var d := m.options.value.driver.value;
    (d.name != "" && d.name != "local") || d.options > 0
  }

  /** driverBacked: some mount of the service gives this volume a driver. */
  predicate DriverBacked(svc: Service, name: string) {
    svc.container.Some? &&
    exists i :: 0 <= i < |svc.container.value.mounts| &&
      Driven(svc.container.value.mounts[i]) && svc.container.value.mounts[i].source == name
  }

  datatype Ownership = Own | NotOwn | Unknown

  /** ownDeclared: scoped under the release, and held by nothing else. */
  function OwnDeclared(ns: string, name: string, held: string -> Lookup): Ownership {
    if !ScopedUnder(ns, name) then NotOwn
    else
      match held(name)
      case ReadFailed => Unknown
      case Absent => Own
      case Held(labels) => if Installs.Label(labels, Installs.LABEL_NAMESPACE) == ns then Own else NotOwn
  }

  /** notOwnVolume: Pass when the volume is the release's own. */
  function NotOwnVolume(c: Context, service: string, name: string): Verdict {
    if !ScopedUnder(c.stack.ns, name) then Refused(MountsForeignVolume(service, name))
    else
      match c.swarm.volumeHolder(name)
      case None => Unread
      case Some(holder) =>
        if holder != c.stack.ns && ScopedUnder(holder, name) then Refused(MountsHeldVolume(service, name, holder)) else Pass
  }

  function HolderOf(networks: seq<Named>, name: string): Option<map<string, string>> {
    if networks == [] then None
    else if Fold(networks[0].name) == Fold(name) then Some(networks[0].labels)
    else HolderOf(networks[1..], name)
  }

  // --- one question of the gate at a time ---

  function ExternalVerdict(kind: Kind, ext: Named): Verdict {
    if HasReservedLabel(ext.labels) then Refused(ReservedLabel(kind, ext.name))
    else if NamedLikeARecord(ext.name) then Refused(ReservedExternal(kind, ext.name))
    else Pass
  }

  function SecretVerdict(c: Context, a: Allow, service: string, name: string): Verdict {
    if c.mine.self && name in c.mine.secrets then Pass
    else if name in c.mine.wired || name in c.mine.secrets then Refused(MountsForbidden(service, Secret, name))
    else if name !in a.secrets then Refused(MountsUnpermitted(service, Secret, name))
    else Pass
  }

  function ConfigVerdict(c: Context, a: Allow, service: string, name: string): Verdict {
    if c.swarm.records.None? then Unread
    else if Fold(name) in c.swarm.records.value then Refused(MountsForbidden(service, Config, name))
    else if c.mine.self && name in c.mine.configs then Pass
    else if name in c.mine.configs then Refused(MountsForbidden(service, Config, name))
    else if name !in a.configs then Refused(MountsUnpermitted(service, Config, name))
    else Pass
  }

  function VolumeVerdict(c: Context, a: Allow, svc: Service, m: Mount): Verdict {
    var name := m.source;
    if c.mine.self && name in c.mine.volumes then Pass
    else if name in c.mine.volumes then Refused(MountsForbidden(svc.name, Volume, name))
    else if !CreatesVolume(m) then
      if name in a.volumes then Pass else Refused(MountsUnpermitted(svc.name, Volume, name))
    else
      var own := NotOwnVolume(c, svc.name, name);
      if own != Pass then own
      else if DriverBacked(svc, name) && name !in a.volumes then Refused(MountsDriverUnpermitted(svc.name, name))
      else Pass
  }

  function DeclaredVerdict(kind: Kind, ns: string, allowed: seq<string>, name: string, held: string -> Lookup): Verdict {
    if name in allowed then Pass
    else
      match OwnDeclared(ns, name, held)
      case Unknown => Unread
      case NotOwn => Refused(DeclaresUnpermitted(kind, name))
      case Own => Pass
  }

  function DeclaredSecretVerdict(c: Context, a: Allow, spec: Named): Verdict {
    if HasReservedLabel(spec.labels) then Refused(ReservedLabel(Secret, spec.name))
    else if NamedLikeARecord(spec.name) then Refused(DeclaresForbidden(Secret, spec.name))
    else if spec.name in c.mine.wired || spec.name in c.mine.secrets then Refused(DeclaresForbidden(Secret, spec.name))
    else DeclaredVerdict(Secret, c.stack.ns, a.secrets, spec.name, c.swarm.secretHeld)
  }

  function DeclaredConfigVerdict(c: Context, a: Allow, spec: Named): Verdict {
    if HasReservedLabel(spec.labels) then Refused(ReservedLabel(Config, spec.name))
    else if NamedLikeARecord(spec.name) then Refused(DeclaresForbidden(Config, spec.name))
    else if spec.name in c.mine.configs then Refused(DeclaresForbidden(Config, spec.name))
    else if c.swarm.records.None? then Unread
    else if Fold(spec.name) in c.swarm.records.value then Refused(DeclaresForbidden(Config, spec.name))
    else DeclaredVerdict(Config, c.stack.ns, a.configs, spec.name, c.swarm.configHeld)
  }

  function JoinVerdict(c: Context, a: Allow, name: string): Verdict {
    if InControllersStack(c.mine.namespace, name) then
      if c.mine.self then Pass else Refused(JoinsForbidden(name))
    else if name in a.networks then Pass
    else Refused(JoinsUnpermitted(name))
  }

  function NetworkVerdict(c: Context, a: Allow, name: string): Verdict {
    if InControllersStack(c.mine.namespace, name) then
      if c.mine.self then Pass else Refused(JoinsForbidden(name))
    else if c.swarm.networks.None? then Unread
    else
      var held := HolderOf(c.swarm.networks.value, name);
      if held.Some? && Installs.Label(held.value, Installs.LABEL_NAMESPACE) != c.stack.ns then Refused(DeclaresHeldNetwork(name))
      else if !ScopedUnder(c.stack.ns, name) && name !in a.networks then Refused(JoinsUnpermitted(name))
      else Pass
  }

  // --- the gate as the list of its answers ---

  function Map<T>(xs: seq<T>, f: T -> Verdict): (r: seq<Verdict>)
    ensures |r| == |xs|
  {
    seq(|xs|, i requires 0 <= i < |xs| => f(xs[i]))
  }

  function ServiceVerdicts(c: Context, a: Allow, svc: Service): seq<Verdict> {
    Map(ExternalSecrets(c.stack, svc), (n: string) => SecretVerdict(c, a, svc.name, n)) +
    Map(ExternalConfigs(c.stack, svc), (n: string) => ConfigVerdict(c, a, svc.name, n)) +
    Map(VolumeSources(svc), (m: Mount) => VolumeVerdict(c, a, svc, m))
  }

  function ServicesVerdicts(c: Context, a: Allow, services: seq<Service>): seq<Verdict> {
    if services == [] then []
    else ServicesVerdicts(c, a, services[..|services| - 1]) + ServiceVerdicts(c, a, services[|services| - 1])
  }

  /** Every question the gate asks of a stack, in the order it asks them. */
  function Verdicts(c: Context, a: Allow): seq<Verdict> {
    Map(c.stack.externalSecrets, (e: Named) => ExternalVerdict(Secret, e)) +
    Map(c.stack.externalConfigs, (e: Named) => ExternalVerdict(Config, e)) +
    ServicesVerdicts(c, a, c.stack.services) +
    Map(c.stack.secrets, (s: Named) => DeclaredSecretVerdict(c, a, s)) +
    Map(c.stack.configs, (s: Named) => DeclaredConfigVerdict(c, a, s)) +
    Map(c.stack.externalNetworks, (n: string) => JoinVerdict(c, a, n)) +
    Map(c.stack.networks, (n: string) => NetworkVerdict(c, a, n))
  }

  /** The first answer that is not Pass. */
  function First(vs: seq<Verdict>): Verdict {
    if vs == [] then Pass else if vs[0] != Pass then vs[0] else First(vs[1..])
  }

  predicate Accepts(c: Context, a: Allow) {
    First(Verdicts(c, a)) == Pass
  }

  lemma {:induction false} FirstConcat(a: seq<Verdict>, b: seq<Verdict>)
    ensures First(a + b) == if First(a) != Pass then First(a) else First(b)
    decreases |a|
  {
    if a == [] {
      assert a + b == b;
    } else {
      assert (a + b)[1..] == a[1..] + b;
      FirstConcat(a[1..], b);
    }
  }

  lemma {:induction false} FirstPasses(vs: seq<Verdict>)
    ensures First(vs) == Pass <==> forall i :: 0 <= i < |vs| ==> vs[i] == Pass
    decreases |vs|
  {
    if vs != [] {
      FirstPasses(vs[1..]);
      forall i | 0 < i < |vs| ensures vs[i] == vs[1..][i - 1] {}
    }
  }

  // --- the gate as it runs ---

  /** Asks one question of each of a list, stopping at the first refusal. */
  method Ask<T>(xs: seq<T>, f: T -> Verdict) returns (v: Verdict)
    ensures v == First(Map(xs, f))
  {
    for i := 0 to |xs|
      invariant First(Map(xs[..i], f)) == Pass
    {
      v := f(xs[i]);
      assert Map(xs, f) == Map(xs[..i], f) + ([v] + Map(xs[i + 1..], f));
      FirstConcat(Map(xs[..i], f), [v] + Map(xs[i + 1..], f));
      if v != Pass { return; }
      assert Map(xs[..i + 1], f) == Map(xs[..i], f) + [v];
      FirstConcat(Map(xs[..i], f), [v]);
    }
    assert xs[..|xs|] == xs;
    v := Pass;
  }

  method AskService(c: Context, a: Allow, svc: Service) returns (v: Verdict)
    ensures v == First(ServiceVerdicts(c, a, svc))
  {
    var secrets := Map(ExternalSecrets(c.stack, svc), (n: string) => SecretVerdict(c, a, svc.name, n));
    var configs := Map(ExternalConfigs(c.stack, svc), (n: string) => ConfigVerdict(c, a, svc.name, n));
    var volumes := Map(VolumeSources(svc), (m: Mount) => VolumeVerdict(c, a, svc, m));
    FirstConcat(secrets + configs, volumes);
    FirstConcat(secrets, configs);
    v := Ask(ExternalSecrets(c.stack, svc), (n: string) => SecretVerdict(c, a, svc.name, n));
    if v != Pass { return; }
    v := Ask(ExternalConfigs(c.stack, svc), (n: string) => ConfigVerdict(c, a, svc.name, n));
    if v != Pass { return; }
    v := Ask(VolumeSources(svc), (m: Mount) => VolumeVerdict(c, a, svc, m));
  }

  method AskServices(c: Context, a: Allow) returns (v: Verdict)
    ensures v == First(ServicesVerdicts(c, a, c.stack.services))
  {
    var services := c.stack.services;
    v := Pass;
    for i := 0 to |services|
      invariant v == First(ServicesVerdicts(c, a, services[..i]))
    {
      assert services[..i + 1][..i] == services[..i];
      FirstConcat(ServicesVerdicts(c, a, services[..i]), ServiceVerdicts(c, a, services[i]));
      if v == Pass {
        v := AskService(c, a, services[i]);
      }
    }
    assert services[..|services|] == services;
  }

  lemma FirstOfSeven(a: seq<Verdict>, b: seq<Verdict>, d: seq<Verdict>, e: seq<Verdict>, f: seq<Verdict>, g: seq<Verdict>, h: seq<Verdict>)
    ensures First(a + b + d + e + f + g + h) ==
            if First(a) != Pass then First(a)
            else if First(b) != Pass then First(b)
            else if First(d) != Pass then First(d)
            else if First(e) != Pass then First(e)
            else if First(f) != Pass then First(f)
            else if First(g) != Pass then First(g)
            else First(h)
  {
    FirstConcat(a + b + d + e + f + g, h);
    FirstConcat(a + b + d + e + f, g);
    FirstConcat(a + b + d + e, f);
    FirstConcat(a + b + d, e);
    FirstConcat(a + b, d);
    FirstConcat(a, b);
  }

  /** The gate: the first of its answers that is not Pass. */
  method RejectForbiddenResources(c: Context, a: Allow) returns (v: Verdict)
    ensures v == First(Verdicts(c, a))
    ensures v == Pass <==> Accepts(c, a)
  {
    FirstOfSeven(
      Map(c.stack.externalSecrets, (e: Named) => ExternalVerdict(Secret, e)),
      Map(c.stack.externalConfigs, (e: Named) => ExternalVerdict(Config, e)),
      ServicesVerdicts(c, a, c.stack.services),
      Map(c.stack.secrets, (s: Named) => DeclaredSecretVerdict(c, a, s)),
      Map(c.stack.configs, (s: Named) => DeclaredConfigVerdict(c, a, s)),
      Map(c.stack.externalNetworks, (n: string) => JoinVerdict(c, a, n)),
      Map(c.stack.networks, (n: string) => NetworkVerdict(c, a, n)));
    v := Ask(c.stack.externalSecrets, (e: Named) => ExternalVerdict(Secret, e));
    if v != Pass { return; }
    v := Ask(c.stack.externalConfigs, (e: Named) => ExternalVerdict(Config, e));
    if v != Pass { return; }
    v := AskServices(c, a);
    if v != Pass { return; }
    v := Ask(c.stack.secrets, (s: Named) => DeclaredSecretVerdict(c, a, s));
    if v != Pass { return; }
    v := Ask(c.stack.configs, (s: Named) => DeclaredConfigVerdict(c, a, s));
    if v != Pass { return; }
    v := Ask(c.stack.externalNetworks, (n: string) => JoinVerdict(c, a, n));
    if v != Pass { return; }
    v := Ask(c.stack.networks, (n: string) => NetworkVerdict(c, a, n));
  }

  // --- accepting, said question by question ---

  ghost predicate ServicePasses(c: Context, a: Allow, svc: Service) {
    && (forall n :: n in ExternalSecrets(c.stack, svc) ==> SecretVerdict(c, a, svc.name, n) == Pass)
    && (forall n :: n in ExternalConfigs(c.stack, svc) ==> ConfigVerdict(c, a, svc.name, n) == Pass)
    && (forall m :: m in VolumeSources(svc) ==> VolumeVerdict(c, a, svc, m) == Pass)
  }

  ghost predicate Passes(c: Context, a: Allow) {
    && (forall e :: e in c.stack.externalSecrets ==> ExternalVerdict(Secret, e) == Pass)
    && (forall e :: e in c.stack.externalConfigs ==> ExternalVerdict(Config, e) == Pass)
    && (forall svc :: svc in c.stack.services ==> ServicePasses(c, a, svc))
    && (forall s :: s in c.stack.secrets ==> DeclaredSecretVerdict(c, a, s) == Pass)
    && (forall s :: s in c.stack.configs ==> DeclaredConfigVerdict(c, a, s) == Pass)
    && (forall n :: n in c.stack.externalNetworks ==> JoinVerdict(c, a, n) == Pass)
    && (forall n :: n in c.stack.networks ==> NetworkVerdict(c, a, n) == Pass)
  }

  lemma MapPasses<T>(xs: seq<T>, f: T -> Verdict)
    ensures First(Map(xs, f)) == Pass <==> forall x :: x in xs ==> f(x) == Pass
  {
    FirstPasses(Map(xs, f));
    if First(Map(xs, f)) == Pass {
      forall x | x in xs ensures f(x) == Pass {
        var i :| 0 <= i < |xs| && xs[i] == x;
        assert Map(xs, f)[i] == f(x);
      }
    }
  }

  lemma ServiceVerdictsPass(c: Context, a: Allow, svc: Service)
    ensures First(ServiceVerdicts(c, a, svc)) == Pass <==> ServicePasses(c, a, svc)
  {
    var secrets := (n: string) => SecretVerdict(c, a, svc.name, n);
    var configs := (n: string) => ConfigVerdict(c, a, svc.name, n);
    var volumes := (m: Mount) => VolumeVerdict(c, a, svc, m);
    MapPasses(ExternalSecrets(c.stack, svc), secrets);
    MapPasses(ExternalConfigs(c.stack, svc), configs);
    MapPasses(VolumeSources(svc), volumes);
    FirstConcat(Map(ExternalSecrets(c.stack, svc), secrets) + Map(ExternalConfigs(c.stack, svc), configs),
      Map(VolumeSources(svc), volumes));
    FirstConcat(Map(ExternalSecrets(c.stack, svc), secrets), Map(ExternalConfigs(c.stack, svc), configs));
  }

  lemma {:induction false} ServicesVerdictsPass(c: Context, a: Allow, services: seq<Service>)
    ensures First(ServicesVerdicts(c, a, services)) == Pass <==> forall svc :: svc in services ==> ServicePasses(c, a, svc)
    decreases |services|
  {
    hide ServicePasses, ServiceVerdicts, First;
    if services == [] {
      assert First([]) == Pass by { FirstPasses([]); }
    } else {
      var n := |services| - 1;
      ServicesVerdictsPass(c, a, services[..n]);
      ServiceVerdictsPass(c, a, services[n]);
      FirstConcat(ServicesVerdicts(c, a, services[..n]), ServiceVerdicts(c, a, services[n]));
      assert services == services[..n] + [services[n]];
    }
  }

  lemma AcceptsIsPasses(c: Context, a: Allow)
    ensures Accepts(c, a) <==> Passes(c, a)
  {
    hide ServicePasses, ServicesVerdicts, First, Map;
    MapPasses(c.stack.externalSecrets, (e: Named) => ExternalVerdict(Secret, e));
    MapPasses(c.stack.externalConfigs, (e: Named) => ExternalVerdict(Config, e));
    ServicesVerdictsPass(c, a, c.stack.services);
    MapPasses(c.stack.secrets, (s: Named) => DeclaredSecretVerdict(c, a, s));
    MapPasses(c.stack.configs, (s: Named) => DeclaredConfigVerdict(c, a, s));
    MapPasses(c.stack.externalNetworks, (n: string) => JoinVerdict(c, a, n));
    MapPasses(c.stack.networks, (n: string) => NetworkVerdict(c, a, n));
    FirstOfSeven(
      Map(c.stack.externalSecrets, (e: Named) => ExternalVerdict(Secret, e)),
      Map(c.stack.externalConfigs, (e: Named) => ExternalVerdict(Config, e)),
      ServicesVerdicts(c, a, c.stack.services),
      Map(c.stack.secrets, (s: Named) => DeclaredSecretVerdict(c, a, s)),
      Map(c.stack.configs, (s: Named) => DeclaredConfigVerdict(c, a, s)),
      Map(c.stack.externalNetworks, (n: string) => JoinVerdict(c, a, n)),
      Map(c.stack.networks, (n: string) => NetworkVerdict(c, a, n)));
  }

  // --- the audit ---

  function Add(list: seq<string>, allowed: seq<string>, controllers: set<string>, name: string): (r: seq<string>)
    ensures forall n :: n in r <==> n in list || (n == name && n !in allowed && n !in controllers)
    ensures Distinct(list) ==> Distinct(r)
  {
    if name in controllers || name in allowed || name in list then list else list + [name]
  }

  method AddAll(list: seq<string>, allowed: seq<string>, controllers: set<string>, names: seq<string>) returns (r: seq<string>)
    requires Distinct(list)
    ensures Distinct(r)
    ensures forall n :: n in r <==> n in list || (n in names && n !in allowed && n !in controllers)
  {
    r := list;
    for i := 0 to |names|
      invariant Distinct(r)
      invariant forall n :: n in r <==> n in list || (n in names[..i] && n !in allowed && n !in controllers)
    {
      r := Add(r, allowed, controllers, names[i]);
    }
  }

  /** A volume mount that needs the allowlist: one the stack does not create, or
      one of its own given a driver. */
  predicate VolumeWanted(c: Context, svc: Service, m: Mount) {
    m.source !in c.mine.volumes &&
    (!CreatesVolume(m) || (NotOwnVolume(c, svc.name, m.source) == Pass && DriverBacked(svc, m.source)))
  }

  predicate VolumeUnread(c: Context, svc: Service, m: Mount) {
    m.source !in c.mine.volumes && CreatesVolume(m) && NotOwnVolume(c, svc.name, m.source) == Unread
  }

  method AuditVolumes(c: Context, a: Allow, svc: Service, list: seq<string>) returns (ok: bool, r: seq<string>)
    requires Distinct(list)
    ensures ok <==> forall m :: m in VolumeSources(svc) ==> !VolumeUnread(c, svc, m)
    ensures ok ==> Distinct(r)
    ensures ok ==> forall n :: n in r <==>
                      n in list || (n !in a.volumes && exists m :: m in VolumeSources(svc) && m.source == n && VolumeWanted(c, svc, m))
  {
    r := list;
    var mounts := VolumeSources(svc);
    for i := 0 to |mounts|
      invariant Distinct(r)
      invariant forall m :: m in mounts[..i] ==> !VolumeUnread(c, svc, m)
      invariant forall n :: n in r <==>
                  n in list || (n !in a.volumes && exists m :: m in mounts[..i] && m.source == n && VolumeWanted(c, svc, m))
    {
      var m := mounts[i];
      ghost var before := r;
      if m.source !in c.mine.volumes {
        if !CreatesVolume(m) {
          r := Add(r, a.volumes, c.mine.volumes, m.source);
        } else {
          var refusal := NotOwnVolume(c, svc.name, m.source);
          if refusal == Unread {
            assert m in mounts && VolumeUnread(c, svc, m);
            return false, r;
          }
          if refusal == Pass && DriverBacked(svc, m.source) {
            r := Add(r, a.volumes, c.mine.volumes, m.source);
          }
        }
      }
      assert mounts[..i + 1] == mounts[..i] + [m];
      assert forall n :: n in r <==> n in before || (n == m.source && n !in a.volumes && VolumeWanted(c, svc, m));
    }
    assert mounts[..|mounts|] == mounts;
    ok := true;
  }

  ghost predicate SecretReferenced(c: Context, services: seq<Service>, n: string) {
    exists svc :: svc in services && n in ExternalSecrets(c.stack, svc)
  }

  ghost predicate ConfigReferenced(c: Context, services: seq<Service>, n: string) {
    exists svc :: svc in services && n in ExternalConfigs(c.stack, svc)
  }

  ghost predicate VolumeReferenced(c: Context, services: seq<Service>, n: string) {
    exists svc, m :: svc in services && m in VolumeSources(svc) && m.source == n && VolumeWanted(c, svc, m)
  }

  ghost predicate VolumesRead(c: Context, services: seq<Service>) {
    forall svc, m :: svc in services && m in VolumeSources(svc) ==> !VolumeUnread(c, svc, m)
  }

  /** What the services' references need. */
  method AuditServices(c: Context, a: Allow) returns (ok: bool, secrets: seq<string>, configs: seq<string>, volumes: seq<string>)
    ensures ok <==> VolumesRead(c, c.stack.services)
    ensures ok ==> Distinct(secrets) && Distinct(configs) && Distinct(volumes)
    ensures ok ==> forall n :: n in secrets <==> SecretReferenced(c, c.stack.services, n) && n !in a.secrets && n !in c.mine.secrets
    ensures ok ==> forall n :: n in configs <==> ConfigReferenced(c, c.stack.services, n) && n !in a.configs && n !in c.mine.configs
    ensures ok ==> forall n :: n in volumes <==> VolumeReferenced(c, c.stack.services, n) && n !in a.volumes
  {
    hide ExternalSecrets, ExternalConfigs, VolumeSources, VolumeWanted, VolumeUnread;
    var services := c.stack.services;
    secrets, configs, volumes, ok := [], [], [], true;
    for i := 0 to |services|
      invariant Distinct(secrets) && Distinct(configs) && Distinct(volumes)
      invariant ok && VolumesRead(c, services[..i])
      invariant forall n :: n in secrets <==> SecretReferenced(c, services[..i], n) && n !in a.secrets && n !in c.mine.secrets
      invariant forall n :: n in configs <==> ConfigReferenced(c, services[..i], n) && n !in a.configs && n !in c.mine.configs
      invariant forall n :: n in volumes <==> VolumeReferenced(c, services[..i], n) && n !in a.volumes
    {
      var svc := services[i];
      assert services[..i + 1] == services[..i] + [svc];
      secrets := AddAll(secrets, a.secrets, c.mine.secrets, ExternalSecrets(c.stack, svc));
      configs := AddAll(configs, a.configs, c.mine.configs, ExternalConfigs(c.stack, svc));
      ok, volumes := AuditVolumes(c, a, svc, volumes);
      if !ok {
        assert svc in services;
        return;
      }
    }
    assert services[..|services|] == services;
  }

  /** A declaration the audit asks about: not in the record space, and not
      permitted already. */
  predicate Asked(allowed: seq<string>, s: Named) {
    !NamedLikeARecord(s.name) && s.name !in allowed
  }

  /** What the stack's declarations of one kind need. */
  method AuditDeclared(ns: string, specs: seq<Named>, allowed: seq<string>, controllers: set<string>,
                       held: string -> Lookup, list: seq<string>)
    returns (ok: bool, r: seq<string>)
    requires Distinct(list)
    ensures ok <==> forall s :: s in specs && Asked(allowed, s) ==> OwnDeclared(ns, s.name, held) != Unknown
    ensures ok ==> Distinct(r)
    ensures ok ==> forall n :: n in r <==>
                      n in list || (n !in controllers &&
                        exists s :: s in specs && s.name == n && Asked(allowed, s) && OwnDeclared(ns, n, held) == NotOwn)
  {
    r := list;
    for i := 0 to |specs|
      invariant Distinct(r)
      invariant forall s :: s in specs[..i] && Asked(allowed, s) ==> OwnDeclared(ns, s.name, held) != Unknown
      invariant forall n :: n in r <==>
                  n in list || (n !in controllers &&
                    exists s :: s in specs[..i] && s.name == n && Asked(allowed, s) && OwnDeclared(ns, n, held) == NotOwn)
    {
      var s := specs[i];
      ghost var before := r;
      if !(NamedLikeARecord(s.name) || s.name in allowed) {
        var own := OwnDeclared(ns, s.name, held);
        if own == Unknown {
          assert s in specs && Asked(allowed, s);
          return false, r;
        }
        if own == NotOwn {
          r := Add(r, allowed, controllers, s.name);
        }
      }
      assert specs[..i + 1] == specs[..i] + [s];
      assert forall n :: n in r <==>
          (n in before || (n == s.name && n !in controllers && Asked(allowed, s) && OwnDeclared(ns, n, held) == NotOwn));
    }
    assert specs[..|specs|] == specs;
    ok := true;
  }

  predicate JoinWanted(c: Context, n: string) {
    !InControllersStack(c.mine.namespace, n) &&
    (n in c.stack.externalNetworks || (n in c.stack.networks && !ScopedUnder(c.stack.ns, n)))
  }

  method AuditNetworks(c: Context, a: Allow) returns (r: seq<string>)
    ensures Distinct(r)
    ensures forall n :: n in r <==> n !in a.networks && JoinWanted(c, n)
  {
    r := [];
    var joined, made := c.stack.externalNetworks, c.stack.networks;
    for i := 0 to |joined|
      invariant Distinct(r)
      invariant forall n :: n in r <==> n !in a.networks && n in joined[..i] && !InControllersStack(c.mine.namespace, n)
    {
      if !InControllersStack(c.mine.namespace, joined[i]) {
        r := Add(r, a.networks, {}, joined[i]);
      }
    }
    for i := 0 to |made|
      invariant Distinct(r)
      invariant forall n :: n in r <==>
                  (n !in a.networks && !InControllersStack(c.mine.namespace, n) &&
                   (n in joined || (n in made[..i] && !ScopedUnder(c.stack.ns, n))))
    {
      if !InControllersStack(c.mine.namespace, made[i]) && !ScopedUnder(c.stack.ns, made[i]) {
        r := Add(r, a.networks, {}, made[i]);
      }
    }
  }

  // --- what the audit says, in words of the stack ---

  ghost predicate SecretNeeded(c: Context, a: Allow, n: string) {
    n !in a.secrets && n !in c.mine.secrets &&
    (SecretReferenced(c, c.stack.services, n) ||
     exists s :: s in c.stack.secrets && s.name == n && Asked(a.secrets, s) && OwnDeclared(c.stack.ns, n, c.swarm.secretHeld) == NotOwn)
  }

  ghost predicate ConfigNeeded(c: Context, a: Allow, n: string) {
    n !in a.configs && n !in c.mine.configs &&
    (ConfigReferenced(c, c.stack.services, n) ||
     exists s :: s in c.stack.configs && s.name == n && Asked(a.configs, s) && OwnDeclared(c.stack.ns, n, c.swarm.configHeld) == NotOwn)
  }

  /** Every read the audit makes succeeds. */
  ghost predicate Readable(c: Context, a: Allow) {
    && VolumesRead(c, c.stack.services)
    && (forall s :: s in c.stack.secrets && Asked(a.secrets, s) ==> OwnDeclared(c.stack.ns, s.name, c.swarm.secretHeld) != Unknown)
    && (forall s :: s in c.stack.configs && Asked(a.configs, s) ==> OwnDeclared(c.stack.ns, s.name, c.swarm.configHeld) != Unknown)
  }

  ghost predicate IsNeed(c: Context, a: Allow, need: Allow) {
    && (forall n :: n in need.secrets <==> SecretNeeded(c, a, n))
    && (forall n :: n in need.configs <==> ConfigNeeded(c, a, n))
    && (forall n :: n in need.volumes <==> VolumeReferenced(c, c.stack.services, n) && n !in a.volumes)
    && (forall n :: n in need.networks <==> n !in a.networks && JoinWanted(c, n))
  }

  ghost predicate Tidy(list: seq<string>) {
    Ascending(list) && Distinct(list)
  }

  lemma SortedTidy(list: seq<string>)
    requires Distinct(list)
    ensures Tidy(Sorted(list))
    ensures forall n :: n in Sorted(list) <==> n in list
  {
    SortedKeepsMembers(list);
    SortedAscending(list);
  }

  /** The audit: the names the allowlist lacks, sorted and each once, or nothing
      when a read failed. */
  method UnpermittedNames(c: Context, a: Allow) returns (r: Option<Allow>)
    ensures r.Some? <==> Readable(c, a)
    ensures r.Some? ==> IsNeed(c, a, r.value)
    ensures r.Some? ==> Tidy(r.value.secrets) && Tidy(r.value.configs) && Tidy(r.value.volumes) && Tidy(r.value.networks)
  {
    hide SecretReferenced, ConfigReferenced, VolumeReferenced, VolumesRead, OwnDeclared, JoinWanted, Tidy, Sorted;
    var ok, secrets, configs, volumes := AuditServices(c, a);
    if !ok { return None; }
    ok, secrets := AuditDeclared(c.stack.ns, c.stack.secrets, a.secrets, c.mine.secrets, c.swarm.secretHeld, secrets);
    if !ok { return None; }
    ok, configs := AuditDeclared(c.stack.ns, c.stack.configs, a.configs, c.mine.configs, c.swarm.configHeld, configs);
    if !ok { return None; }
    var networks := AuditNetworks(c, a);
    SortedTidy(secrets);
    SortedTidy(configs);
    SortedTidy(volumes);
    SortedTidy(networks);
    r := Some(Allow(Sorted(secrets), Sorted(configs), Sorted(volumes), Sorted(networks)));
  }

  // --- gate and audit agree ---

  predicate Within(small: seq<string>, big: seq<string>) {
    forall n :: n in small ==> n in big
  }

  /** big permits everything small does. */
  predicate Includes(big: Allow, small: Allow) {
    Within(small.secrets, big.secrets) && Within(small.configs, big.configs) &&
    Within(small.volumes, big.volumes) && Within(small.networks, big.networks)
  }

  function Plus(a: Allow, b: Allow): Allow {
    Allow(a.secrets + b.secrets, a.configs + b.configs, a.volumes + b.volumes, a.networks + b.networks)
  }

  /** Permitting more never makes the gate refuse. */
  lemma AcceptanceIsMonotone(c: Context, a: Allow, b: Allow)
    requires Includes(b, a) && Accepts(c, a)
    ensures Accepts(c, b)
  {
    hide Accepts, ExternalSecrets, ExternalConfigs, VolumeSources, NotOwnVolume, OwnDeclared, CreatesVolume, DriverBacked;
    AcceptsIsPasses(c, a);
    AcceptsIsPasses(c, b);
  }

  /** Whatever larger list the gate accepts holds everything the audit names. */
  lemma NeedIsNecessary(c: Context, a: Allow, larger: Allow, need: Allow)
    requires Accepts(c, larger) && IsNeed(c, a, need)
    ensures Includes(larger, need)
  {
    hide Accepts, ExternalSecrets, ExternalConfigs, VolumeSources, NotOwnVolume, OwnDeclared, CreatesVolume, DriverBacked,
      HasReservedLabel, NamedLikeARecord, InControllersStack;
    AcceptsIsPasses(c, larger);
    forall n | n in need.secrets ensures n in larger.secrets {
      if SecretReferenced(c, c.stack.services, n) {
        var svc :| svc in c.stack.services && n in ExternalSecrets(c.stack, svc);
        assert ServicePasses(c, larger, svc);
        assert SecretVerdict(c, larger, svc.name, n) == Pass;
      } else {
        var s :| s in c.stack.secrets && s.name == n && Asked(a.secrets, s);
        assert DeclaredSecretVerdict(c, larger, s) == Pass;
      }
    }
    forall n | n in need.configs ensures n in larger.configs {
      if ConfigReferenced(c, c.stack.services, n) {
        var svc :| svc in c.stack.services && n in ExternalConfigs(c.stack, svc);
        assert ServicePasses(c, larger, svc);
        assert ConfigVerdict(c, larger, svc.name, n) == Pass;
      } else {
        var s :| s in c.stack.configs && s.name == n && Asked(a.configs, s);
        assert DeclaredConfigVerdict(c, larger, s) == Pass;
      }
    }
    forall n | n in need.volumes ensures n in larger.volumes {
      var svc, m :| svc in c.stack.services && m in VolumeSources(svc) && m.source == n && VolumeWanted(c, svc, m);
      assert ServicePasses(c, larger, svc);
      assert VolumeVerdict(c, larger, svc, m) == Pass;
    }
    forall n | n in need.networks ensures n in larger.networks {
      assert JoinWanted(c, n);
      if n in c.stack.externalNetworks {
        assert JoinVerdict(c, larger, n) == Pass;
      } else {
        assert NetworkVerdict(c, larger, n) == Pass;
      }
    }
  }

  lemma ServiceRepaired(c: Context, a: Allow, larger: Allow, need: Allow, svc: Service)
    requires svc in c.stack.services && ServicePasses(c, larger, svc)
    requires IsNeed(c, a, need)
    ensures ServicePasses(c, Plus(a, need), svc)
  {
    hide ExternalSecrets, ExternalConfigs, VolumeSources, NotOwnVolume, OwnDeclared, CreatesVolume, DriverBacked;
    var all := Plus(a, need);
    forall n | n in ExternalSecrets(c.stack, svc) ensures SecretVerdict(c, all, svc.name, n) == Pass {
      assert SecretReferenced(c, c.stack.services, n);
      assert SecretVerdict(c, larger, svc.name, n) == Pass;
      assert n in a.secrets || n in c.mine.secrets || SecretNeeded(c, a, n);
    }
    forall n | n in ExternalConfigs(c.stack, svc) ensures ConfigVerdict(c, all, svc.name, n) == Pass {
      assert ConfigReferenced(c, c.stack.services, n);
      assert ConfigVerdict(c, larger, svc.name, n) == Pass;
      assert n in a.configs || n in c.mine.configs || ConfigNeeded(c, a, n);
    }
    forall m | m in VolumeSources(svc) ensures VolumeVerdict(c, all, svc, m) == Pass {
      assert VolumeVerdict(c, larger, svc, m) == Pass;
      assert VolumeWanted(c, svc, m) ==> VolumeReferenced(c, c.stack.services, m.source);
    }
  }

  /** If any larger list would be accepted, adding what the audit names is
      enough. */
  lemma NeedSuffices(c: Context, a: Allow, larger: Allow, need: Allow)
    requires Accepts(c, larger) && Readable(c, a) && IsNeed(c, a, need)
    ensures Accepts(c, Plus(a, need))
  {
    hide Accepts, ServicePasses, OwnDeclared, HasReservedLabel, InControllersStack, HolderOf, VolumesRead,
      SecretReferenced, ConfigReferenced, VolumeReferenced;
    var all := Plus(a, need);
    AcceptsIsPasses(c, larger);
    AcceptsIsPasses(c, all);
    forall svc | svc in c.stack.services ensures ServicePasses(c, all, svc) {
      ServiceRepaired(c, a, larger, need, svc);
    }
    forall s | s in c.stack.secrets ensures DeclaredSecretVerdict(c, all, s) == Pass {
      assert DeclaredSecretVerdict(c, larger, s) == Pass;
      if s.name !in all.secrets {
        assert Asked(a.secrets, s);
        assert !SecretNeeded(c, a, s.name);
      }
    }
    forall s | s in c.stack.configs ensures DeclaredConfigVerdict(c, all, s) == Pass {
      assert DeclaredConfigVerdict(c, larger, s) == Pass;
      if s.name !in all.configs {
        assert Asked(a.configs, s);
        assert !ConfigNeeded(c, a, s.name);
      }
    }
    forall n | n in c.stack.externalNetworks ensures JoinVerdict(c, all, n) == Pass {
      assert JoinVerdict(c, larger, n) == Pass;
      assert JoinWanted(c, n) || InControllersStack(c.mine.namespace, n);
    }
    forall n | n in c.stack.networks ensures NetworkVerdict(c, all, n) == Pass {
      assert NetworkVerdict(c, larger, n) == Pass;
      assert JoinWanted(c, n) || InControllersStack(c.mine.namespace, n) || ScopedUnder(c.stack.ns, n);
    }
  }

  /** The audit is the least repair of the gate. Some list that includes the
      application's own would be accepted if and only if adding the audit's names
      is; and every such list holds all of them. */
  lemma AuditIsTheLeastRepair(c: Context, a: Allow, need: Allow)
    requires Readable(c, a) && IsNeed(c, a, need)
    ensures (exists larger :: Includes(larger, a) && Accepts(c, larger)) <==> Accepts(c, Plus(a, need))
    ensures forall larger :: Includes(larger, a) && Accepts(c, larger) ==> Includes(larger, Plus(a, need))
  {
    hide Accepts, Readable, IsNeed;
    forall larger | Includes(larger, a) && Accepts(c, larger)
      ensures Includes(larger, Plus(a, need)) && Accepts(c, Plus(a, need))
    {
      NeedIsNecessary(c, a, larger, need);
      NeedSuffices(c, a, larger, need);
    }
    assert Includes(Plus(a, need), a);
  }

  /** For a stack the gate can be made to accept, the audit names nothing exactly
      when the gate accepts as things are. */
  lemma AuditIsSilentWhenAccepted(c: Context, a: Allow, need: Allow, larger: Allow)
    requires Readable(c, a) && IsNeed(c, a, need)
    requires Includes(larger, a) && Accepts(c, larger)
    ensures Accepts(c, a) <==> need == Allow([], [], [], [])
  {
    hide Accepts, Readable;
    if Accepts(c, a) {
      NeedIsNecessary(c, a, a, need);
      forall n ensures n !in need.secrets && n !in need.configs && n !in need.volumes && n !in need.networks {
      }
      HeadIsMember(need.secrets);
      HeadIsMember(need.configs);
      HeadIsMember(need.volumes);
      HeadIsMember(need.networks);
    }
    if need == Allow([], [], [], []) {
      NeedSuffices(c, a, larger, need);
      assert Plus(a, need) == a;
    }
  }

  lemma HeadIsMember(s: seq<string>)
    ensures s == [] || s[0] in s
  {
  }
}
