/** What a live comparison reports (drift/live.go): of every field compared, that it
    differs and as what it stands on either side, the manifest's first. */
module Reporting {
  import opened Text
  import opened Specs
  import opened Silence

  /** A field that differs, and its two values. */
  ghost predicate Says(f: Field, name: string, want: Value, got: Value) {
    want != got && f == Field(name, want, got)
  }

  ghost predicate SaysText(f: Field, name: string, want: string, got: string) {
    Says(f, name, Shown(want), Shown(got))
  }

  ghost predicate SaysNumber(f: Field, name: string, want: int, got: int) {
    Says(f, name, Num(want), Num(got))
  }

  ghost predicate SaysBool(f: Field, name: string, want: bool, got: bool) {
    Says(f, name, Shown(if want then "true" else "false"), Shown(if got then "true" else "false"))
  }

  /** A struct that only one side has. */
  ghost predicate SaysPresence(f: Field, name: string, want: bool, got: bool) {
    Says(f, name, Shown(if want then "set" else "absent"), Shown(if got then "set" else "absent"))
  }

  /** Lists that hold different things, each shown in order of its entries. */
  ghost predicate SaysSet(f: Field, name: string, want: seq<string>, got: seq<string>) {
    multiset(want) != multiset(got) && f == Field(name, Shown(Join(Sorted(want), ", ")), Shown(Join(Sorted(got), ", ")))
  }

  ghost predicate SaysKeyed(f: Field, r: Rendering, prefix: string, want: map<string, string>, got: map<string, string>) {
    exists k :: Reports(f, r, prefix, k, want, got)
  }

  ghost function KindOf(m: Mode): string {
    if m.global then "global" else if m.job.Some? then "replicated-job" else if m.globalJob then "global-job" else "replicated"
  }

  ghost predicate SaysMode(f: Field, w: Mode, g: Mode) {
    if KindOf(w) != KindOf(g) then SaysText(f, "mode", KindOf(w), KindOf(g))
    else if KindOf(w) == "replicated" then SaysNumber(f, "replicas", ReplicasOf(w), ReplicasOf(g))
    else if w.job.Some? && g.job.Some? && !w.global then
      SaysNumber(f, "maxConcurrent", ConcurrentOf(w.job.value), ConcurrentOf(g.job.value)) ||
      SaysNumber(f, "totalCompletions", CompletionsOf(w.job.value), CompletionsOf(g.job.value))
    else false
  }

  ghost predicate SaysResources(f: Field, w: Option<Resources>, g: Option<Resources>) {
    SaysNumber(f, "resources.limits.nanoCPUs", LimitOf(w).nanoCPUs, LimitOf(g).nanoCPUs) ||
    SaysNumber(f, "resources.limits.memoryBytes", LimitOf(w).memory, LimitOf(g).memory) ||
    SaysNumber(f, "resources.limits.pids", LimitOf(w).pids, LimitOf(g).pids) ||
    SaysNumber(f, "resources.reservations.nanoCPUs", ReserveOf(w).nanoCPUs, ReserveOf(g).nanoCPUs) ||
    SaysNumber(f, "resources.reservations.memoryBytes", ReserveOf(w).memory, ReserveOf(g).memory) ||
    SaysSet(f, "resources.reservations.genericResources", GenericNames(ReserveOf(w).generic), GenericNames(ReserveOf(g).generic))
  }

  ghost predicate SaysWorkload(f: Field, norm: string -> string, want: Spec, got: Spec) {
    var w, g := Inside(want), Inside(got);
    SaysMode(f, want.mode, got.mode) ||
    (!SameImage(norm, w, g) && f == Field("image", Shown(w.image), Shown(g.image))) ||
    SaysResources(f, want.resources, got.resources) ||
    SaysKeyed(f, Names, "env", IndexOf(w.env, EnvEntry), IndexOf(g.env, EnvEntry)) ||
    SaysSet(f, "constraints", ConstraintsOf(want.placement), ConstraintsOf(got.placement))
  }

  ghost predicate SaysAccess(f: Field, want: Spec, got: Spec, nets: Option<map<string, string>>) {
    var w, g := Inside(want), Inside(got);
    SaysKeyed(f, Values, "labels", OwnLabels(want.labels), OwnLabels(got.labels)) ||
    SaysKeyed(f, Names, "ports", IndexOf(PortsOf(want.endpoint), PortEntry), IndexOf(PortsOf(got.endpoint), PortEntry)) ||
    SaysText(f, "endpointMode", Or(EndpointModeOf(want.endpoint), "vip"), Or(EndpointModeOf(got.endpoint), "vip")) ||
    (!Unsettled(want, got, nets) && SaysSet(f, "networks", want.networks, Attached(nets, got.networks))) ||
    SaysKeyed(f, Values, "mounts", IndexOf(w.mounts, MountEntry), IndexOf(g.mounts, MountEntry)) ||
    SaysKeyed(f, Values, "secrets", Joined(FilterMap(w.secrets, SecretEntry)), Joined(FilterMap(g.secrets, SecretEntry))) ||
    SaysKeyed(f, Values, "configs", Joined(FilterMap(w.configs, ConfigEntry)), Joined(FilterMap(g.configs, ConfigEntry)))
  }

  ghost function Or(s: string, otherwise: string): string {
    if |s| > 0 then s else otherwise
  }

  ghost predicate SaysHealth(f: Field, want: Option<Health>, got: Option<Health>) {
    match (want, got)
    case (Some(w), Some(g)) =>
      SaysText(f, "healthcheck.test", Join(w.test, " "), Join(g.test, " ")) ||
      SaysNumber(f, "healthcheck.interval", w.interval, g.interval) ||
      SaysNumber(f, "healthcheck.timeout", w.timeout, g.timeout) ||
      SaysNumber(f, "healthcheck.startPeriod", w.startPeriod, g.startPeriod) ||
      SaysNumber(f, "healthcheck.startInterval", w.startInterval, g.startInterval) ||
      SaysNumber(f, "healthcheck.retries", w.retries, g.retries)
    case _ => SaysPresence(f, "healthcheck", want != None, got != None)
  }

  ghost predicate SaysUpdate(f: Field, prefix: string, want: Option<Update>, got: Option<Update>) {
    match (want, got)
    case (Some(w), Some(g)) =>
      SaysNumber(f, prefix + ".parallelism", w.parallelism, g.parallelism) ||
      SaysNumber(f, prefix + ".delay", w.delay, g.delay) ||
      SaysText(f, prefix + ".failureAction", Or(w.failureAction, "pause"), Or(g.failureAction, "pause")) ||
      SaysText(f, prefix + ".order", Or(w.order, "stop-first"), Or(g.order, "stop-first")) ||
      SaysNumber(f, prefix + ".monitor", w.monitor, g.monitor) ||
      Says(f, prefix + ".maxFailureRatio", Ratio(w.ratio), Ratio(g.ratio))
    case _ => SaysPresence(f, prefix, want != None, got != None)
  }

  ghost predicate SaysRestart(f: Field, want: Option<Restart>, got: Option<Restart>) {
    match (want, got)
    case (Some(w), Some(g)) =>
      SaysText(f, "restartPolicy.condition", Or(w.condition, "any"), Or(g.condition, "any")) ||
      SaysNumber(f, "restartPolicy.delay", OrZero(w.delay), OrZero(g.delay)) ||
      SaysNumber(f, "restartPolicy.window", OrZero(w.window), OrZero(g.window)) ||
      SaysNumber(f, "restartPolicy.maxAttempts", AttemptsOf(w), AttemptsOf(g))
    case _ => SaysPresence(f, "restartPolicy", want != None, got != None)
  }

  ghost predicate SaysPolicy(f: Field, want: Spec, got: Spec) {
    SaysHealth(f, Inside(want).health, Inside(got).health) ||
    SaysUpdate(f, "updateConfig", want.update, got.update) ||
    SaysUpdate(f, "rollbackConfig", want.rollback, got.rollback) ||
    SaysRestart(f, want.restart, got.restart) ||
    (PreferencesOf(want.placement) != PreferencesOf(got.placement) &&
     f == Field("placement.preferences", Shown(Join(PreferencesOf(want.placement), ", ")), Shown(Join(PreferencesOf(got.placement), ", ")))) ||
    SaysNumber(f, "placement.maxReplicas", MaxReplicasOf(want.placement), MaxReplicasOf(got.placement))
  }

  ghost function InitOf(init: Option<bool>): string {
    match init
    case None => "(unset)"
    case Some(true) => "true"
    case Some(false) => "false"
  }

  ghost predicate SaysScalar(f: Field, w: Literal, g: Literal) {
    SaysText(f, "command", Join(w.command, " "), Join(g.command, " ")) ||
    SaysText(f, "args", Join(w.args, " "), Join(g.args, " ")) ||
    SaysText(f, "user", w.user, g.user) ||
    SaysText(f, "workingDir", w.dir, g.dir) ||
    SaysText(f, "hostname", w.hostname, g.hostname) ||
    SaysText(f, "stopSignal", w.stopSignal, g.stopSignal) ||
    SaysNumber(f, "stopGracePeriod", OrZero(w.stopGrace), OrZero(g.stopGrace)) ||
    SaysBool(f, "readOnly", w.readOnly, g.readOnly) ||
    SaysBool(f, "tty", w.tty, g.tty) ||
    SaysText(f, "init", InitOf(w.init), InitOf(g.init))
  }

  ghost predicate SaysDNS(f: Field, want: Option<DNS>, got: Option<DNS>) {
    match (want, got)
    case (Some(w), Some(g)) =>
      SaysSet(f, "dns.nameservers", w.nameservers, g.nameservers) || SaysSet(f, "dns.search", w.search, g.search) ||
      SaysSet(f, "dns.options", w.options, g.options)
    case _ => SaysPresence(f, "dns", want != None, got != None)
  }

  ghost predicate SaysCollection(f: Field, w: Literal, g: Literal) {
    SaysSet(f, "hosts", w.hosts, g.hosts) ||
    SaysSet(f, "groups", w.groups, g.groups) ||
    SaysSet(f, "capabilityAdd", w.capabilityAdd, g.capabilityAdd) ||
    SaysSet(f, "capabilityDrop", w.capabilityDrop, g.capabilityDrop) ||
    SaysKeyed(f, Values, "sysctls", w.sysctls, g.sysctls) ||
    SaysKeyed(f, Values, "ulimits", IndexOf(w.ulimits, UlimitEntry), IndexOf(g.ulimits, UlimitEntry)) ||
    SaysDNS(f, w.dns, g.dns)
  }

  ghost function CredentialText(c: Option<Credential>): string {
    var (kind, value) := Source(c);
    if kind == 1 then "config=" + value else if kind == 2 then "file=" + value else if kind == 3 then "registry=" + value else ""
  }

  ghost function SeccompText(x: Option<Seccomp>): string {
    SeccompMode(x) + if HasProfile(x) then " (custom profile)" else ""
  }

  ghost function SelinuxText(x: Option<Selinux>): string {
    match x
    case None => ""
    case Some(Selinux(true, _, _, _, _)) => "disabled"
    case Some(Selinux(false, user, role, kind, level)) => user + ":" + role + ":" + kind + ":" + level
  }

  ghost predicate SaysPrivileges(f: Field, want: Option<Privileges>, got: Option<Privileges>) {
    match (want, got)
    case (Some(w), Some(g)) =>
      SaysText(f, "privileges.credentialSpec", CredentialText(w.credential), CredentialText(g.credential)) ||
      SaysBool(f, "privileges.noNewPrivileges", w.noNew, g.noNew) ||
      SaysText(f, "privileges.seccomp", SeccompText(w.seccomp), SeccompText(g.seccomp)) ||
      SaysText(f, "privileges.apparmor", OrEmpty(w.apparmor), OrEmpty(g.apparmor)) ||
      SaysText(f, "privileges.selinux", SelinuxText(w.selinux), SelinuxText(g.selinux))
    case _ => SaysPresence(f, "privileges", want != None, got != None)
  }

  ghost predicate SaysRuntime(f: Field, w: Literal, g: Literal) {
    SaysBool(f, "openStdin", w.openStdin, g.openStdin) ||
    SaysNumber(f, "oomScoreAdj", w.oomScoreAdj, g.oomScoreAdj) ||
    SaysText(f, "isolation", Or(w.isolation, "default"), Or(g.isolation, "default")) ||
    SaysKeyed(f, Values, "containerLabels", OwnLabels(w.labels), OwnLabels(g.labels)) ||
    SaysPrivileges(f, w.privileges, g.privileges)
  }

  ghost predicate SaysDriver(f: Field, want: Option<Driver>, got: Option<Driver>) {
    match (want, got)
    case (Some(w), Some(g)) => SaysText(f, "logDriver.name", w.name, g.name) || SaysKeyed(f, Values, "logDriver.options", w.options, g.options)
    case _ => SaysPresence(f, "logDriver", want != None, got != None)
  }

  // --- section by section ---

  lemma DiffersSay(f: Field, name: string, want: Value, got: Value)
    ensures f in Differ(name, want, got) <==> Says(f, name, want, got)
  {
  }

  lemma NumberSays(f: Field, name: string, want: int, got: int)
    ensures f in Differ(name, Num(want), Num(got)) <==> SaysNumber(f, name, want, got)
  {
  }

  lemma TextSays(f: Field, name: string, want: string, got: string)
    ensures f in Differ(name, Shown(want), Shown(got)) <==> SaysText(f, name, want, got)
  {
  }

  lemma BoolSays(f: Field, name: string, want: bool, got: bool)
    ensures f in Differ(name, Bool(want), Bool(got)) <==> SaysBool(f, name, want, got)
  {
  }

  lemma SetsSay(f: Field, name: string, want: seq<string>, got: seq<string>)
    ensures f in DifferAsSet(name, want, got) <==> SaysSet(f, name, want, got)
  {
    SortedIsCanonical(want, got);
    hide Join, Sorted;
  }

  lemma KeyedSays(f: Field, r: Rendering, prefix: string, want: map<string, string>, got: map<string, string>)
    ensures f in Keyed(r, prefix, want, got) <==> SaysKeyed(f, r, prefix, want, got)
  {
    KeyedReports(r, prefix, want, got);
    hide Keyed;
    if k :| Reports(f, r, prefix, k, want, got) {
      var h :| h in Keyed(r, prefix, want, got) && Reports(h, r, prefix, k, want, got);
      assert h == f;
    }
  }

  lemma ModeSays(f: Field, w: Mode, g: Mode)
    ensures f in ModeFields(w, g) <==> SaysMode(f, w, g)
  {
  }

  lemma ResourcesSay(f: Field, w: Option<Resources>, g: Option<Resources>)
    ensures f in ResourceFields(w, g) <==> SaysResources(f, w, g)
  {
    assert Limits(w) == LimitOf(w) && Limits(g) == LimitOf(g) && Reservations(w) == ReserveOf(w) && Reservations(g) == ReserveOf(g);
    hide DifferAsSet, SaysSet, GenericNames, Differ, SaysNumber, Limits, LimitOf, Reservations, ReserveOf;
    NumberSays(f, "resources.limits.nanoCPUs", LimitOf(w).nanoCPUs, LimitOf(g).nanoCPUs);
    NumberSays(f, "resources.limits.memoryBytes", LimitOf(w).memory, LimitOf(g).memory);
    NumberSays(f, "resources.limits.pids", LimitOf(w).pids, LimitOf(g).pids);
    NumberSays(f, "resources.reservations.nanoCPUs", ReserveOf(w).nanoCPUs, ReserveOf(g).nanoCPUs);
    NumberSays(f, "resources.reservations.memoryBytes", ReserveOf(w).memory, ReserveOf(g).memory);
    SetsSay(f, "resources.reservations.genericResources", GenericNames(ReserveOf(w).generic), GenericNames(ReserveOf(g).generic));
  }

  lemma WorkloadSays(f: Field, norm: string -> string, want: Spec, got: Spec)
    ensures f in WorkloadFields(norm, want, got) <==> SaysWorkload(f, norm, want, got)
  {
    InsideIs(want);
    InsideIs(got);
    var w, g := Inside(want), Inside(got);
    ModeSays(f, want.mode, got.mode);
    ResourcesSay(f, want.resources, got.resources);
    KeyedSays(f, Names, "env", IndexOf(w.env, EnvEntry), IndexOf(g.env, EnvEntry));
    PlacementMeans(want.placement);
    PlacementMeans(got.placement);
    SetsSay(f, "constraints", ConstraintsOf(want.placement), ConstraintsOf(got.placement));
    hide ModeFields, SaysMode, ResourceFields, SaysResources, Keyed, SaysKeyed, DifferAsSet, SaysSet, Constraints, ConstraintsOf, Inside,
      ContainerOf, IndexOf;
  }

  lemma EndpointSays(f: Field, want: Spec, got: Spec)
    ensures f in Keyed(Names, "ports", PortSet(want.endpoint), PortSet(got.endpoint)) <==>
            SaysKeyed(f, Names, "ports", IndexOf(PortsOf(want.endpoint), PortEntry), IndexOf(PortsOf(got.endpoint), PortEntry))
    ensures f in Differ("endpointMode", Shown(ResolutionMode(want.endpoint)), Shown(ResolutionMode(got.endpoint))) <==>
            SaysText(f, "endpointMode", Or(EndpointModeOf(want.endpoint), "vip"), Or(EndpointModeOf(got.endpoint), "vip"))
  {
    NoPorts();
    assert PortSet(want.endpoint) == IndexOf(PortsOf(want.endpoint), PortEntry);
    assert PortSet(got.endpoint) == IndexOf(PortsOf(got.endpoint), PortEntry);
    KeyedSays(f, Names, "ports", PortSet(want.endpoint), PortSet(got.endpoint));
    hide Keyed, SaysKeyed, IndexOf;
  }

  lemma NetworksSay(f: Field, want: Spec, got: Spec, nets: Option<map<string, string>>)
    ensures f in NetworkFields(want, got, nets) <==>
            !Unsettled(want, got, nets) && SaysSet(f, "networks", want.networks, Attached(nets, got.networks))
  {
    hide Resolved, DifferAsSet, SaysSet;
    if nets.Some? { ResolvedIs(got.networks, nets.value); }
    SetsSay(f, "networks", want.networks, Attached(nets, got.networks));
  }

  lemma AccessSays(f: Field, want: Spec, got: Spec, nets: Option<map<string, string>>)
    ensures f in AccessFields(want, got, nets) <==> SaysAccess(f, want, got, nets)
  {
    InsideIs(want);
    InsideIs(got);
    var w, g := Inside(want), Inside(got);
    KeyedSays(f, Values, "labels", OwnLabels(want.labels), OwnLabels(got.labels));
    EndpointSays(f, want, got);
    NetworksSay(f, want, got, nets);
    KeyedSays(f, Values, "mounts", IndexOf(w.mounts, MountEntry), IndexOf(g.mounts, MountEntry));
    KeyedSays(f, Values, "secrets", Joined(FilterMap(w.secrets, SecretEntry)), Joined(FilterMap(g.secrets, SecretEntry)));
    KeyedSays(f, Values, "configs", Joined(FilterMap(w.configs, ConfigEntry)), Joined(FilterMap(g.configs, ConfigEntry)));
    hide Keyed, SaysKeyed, SaysText, SaysSet, Differ, NetworkFields, IndexOf, Joined, FilterMap, OwnLabels, Inside, ContainerOf, Unsettled,
      Attached, PortSet, PortsOf, ResolutionMode, Or;
  }

  lemma PolicySays(f: Field, want: Spec, got: Spec)
    ensures f in PolicyFields(want, got) <==> SaysPolicy(f, want, got)
  {
    InsideIs(want);
    InsideIs(got);
    HealthSays(f, Inside(want).health, Inside(got).health);
    UpdateSays(f, "updateConfig", want.update, got.update);
    UpdateSays(f, "rollbackConfig", want.rollback, got.rollback);
    RestartSays(f, want.restart, got.restart);
    PlacementMeans(want.placement);
    PlacementMeans(got.placement);
    hide HealthFields, SaysHealth, UpdateFields, SaysUpdate, RestartFields, SaysRestart, Preferences, PreferencesOf, MaxReplicas,
      MaxReplicasOf, Join, Inside, ContainerOf;
  }

  lemma HealthSays(f: Field, want: Option<Health>, got: Option<Health>)
    ensures f in HealthFields(want, got) <==> SaysHealth(f, want, got)
  {
    hide Differ, SaysNumber, SaysText, Join;
    if want.Some? && got.Some? {
      var w, g := want.value, got.value;
      TextSays(f, "healthcheck.test", Join(w.test, " "), Join(g.test, " "));
      NumberSays(f, "healthcheck.interval", w.interval, g.interval);
      NumberSays(f, "healthcheck.timeout", w.timeout, g.timeout);
      NumberSays(f, "healthcheck.startPeriod", w.startPeriod, g.startPeriod);
      NumberSays(f, "healthcheck.startInterval", w.startInterval, g.startInterval);
      NumberSays(f, "healthcheck.retries", w.retries, g.retries);
    }
  }

  lemma UpdateSays(f: Field, prefix: string, want: Option<Update>, got: Option<Update>)
    ensures f in UpdateFields(prefix, want, got) <==> SaysUpdate(f, prefix, want, got)
  {
    hide Differ, SaysNumber, SaysText;
    if want.Some? && got.Some? {
      var w, g := want.value, got.value;
      NumberSays(f, prefix + ".parallelism", w.parallelism, g.parallelism);
      NumberSays(f, prefix + ".delay", w.delay, g.delay);
      TextSays(f, prefix + ".failureAction", Or(w.failureAction, "pause"), Or(g.failureAction, "pause"));
      TextSays(f, prefix + ".order", Or(w.order, "stop-first"), Or(g.order, "stop-first"));
      NumberSays(f, prefix + ".monitor", w.monitor, g.monitor);
      DiffersSay(f, prefix + ".maxFailureRatio", Ratio(w.ratio), Ratio(g.ratio));
    }
  }

  lemma RestartSays(f: Field, want: Option<Restart>, got: Option<Restart>)
    ensures f in RestartFields(want, got) <==> SaysRestart(f, want, got)
  {
    hide Differ, SaysNumber, SaysText;
    if want.Some? && got.Some? {
      var w, g := want.value, got.value;
      TextSays(f, "restartPolicy.condition", Or(w.condition, "any"), Or(g.condition, "any"));
      NumberSays(f, "restartPolicy.delay", OrZero(w.delay), OrZero(g.delay));
      NumberSays(f, "restartPolicy.window", OrZero(w.window), OrZero(g.window));
      NumberSays(f, "restartPolicy.maxAttempts", AttemptsOf(w), AttemptsOf(g));
    }
  }

  lemma ScalarsSay(f: Field, w: Literal, g: Literal)
    ensures f in ScalarFields(w, g) <==> SaysScalar(f, w, g)
  {
    hide Differ, SaysNumber, SaysText, SaysBool, Join, Bool;
    TextSays(f, "command", Join(w.command, " "), Join(g.command, " "));
    TextSays(f, "args", Join(w.args, " "), Join(g.args, " "));
    TextSays(f, "user", w.user, g.user);
    TextSays(f, "workingDir", w.dir, g.dir);
    TextSays(f, "hostname", w.hostname, g.hostname);
    TextSays(f, "stopSignal", w.stopSignal, g.stopSignal);
    NumberSays(f, "stopGracePeriod", OrZero(w.stopGrace), OrZero(g.stopGrace));
    BoolSays(f, "readOnly", w.readOnly, g.readOnly);
    BoolSays(f, "tty", w.tty, g.tty);
    TextSays(f, "init", InitOf(w.init), InitOf(g.init));
  }

  lemma DNSSays(f: Field, want: Option<DNS>, got: Option<DNS>)
    ensures f in DNSFields(want, got) <==> SaysDNS(f, want, got)
  {
    if want.Some? && got.Some? {
      SetsSay(f, "dns.nameservers", want.value.nameservers, got.value.nameservers);
      SetsSay(f, "dns.search", want.value.search, got.value.search);
      SetsSay(f, "dns.options", want.value.options, got.value.options);
      hide DifferAsSet, SaysSet;
    }
  }

  lemma CollectionsSay(f: Field, w: Literal, g: Literal)
    ensures f in CollectionFields(w, g) <==> SaysCollection(f, w, g)
  {
    hide DifferAsSet, SaysSet, Keyed, SaysKeyed, DNSFields, SaysDNS, IndexOf;
    SetsSay(f, "hosts", w.hosts, g.hosts);
    SetsSay(f, "groups", w.groups, g.groups);
    SetsSay(f, "capabilityAdd", w.capabilityAdd, g.capabilityAdd);
    SetsSay(f, "capabilityDrop", w.capabilityDrop, g.capabilityDrop);
    KeyedSays(f, Values, "sysctls", w.sysctls, g.sysctls);
    KeyedSays(f, Values, "ulimits", IndexOf(w.ulimits, UlimitEntry), IndexOf(g.ulimits, UlimitEntry));
    DNSSays(f, w.dns, g.dns);
  }

  lemma PrivilegeTexts(p: Privileges)
    ensures CredentialOf(p.credential) == CredentialText(p.credential) && SeccompOf(p.seccomp) == SeccompText(p.seccomp)
    ensures SelinuxOf(p.selinux) == SelinuxText(p.selinux) && OrElse(p.apparmor, "") == OrEmpty(p.apparmor)
  {
    if p.selinux.Some? {
      var x := p.selinux.value;
      Silence.SelinuxText(x);
      assert x.user + [':'] + (x.role + [':'] + (x.kind + [':'] + x.level)) == x.user + ":" + x.role + ":" + x.kind + ":" + x.level;
      hide Join;
    }
  }

  lemma PrivilegesSay(f: Field, want: Option<Privileges>, got: Option<Privileges>)
    ensures f in PrivilegeFields(want, got) <==> SaysPrivileges(f, want, got)
  {
    hide Differ, SaysText, SaysBool, Bool, CredentialOf, CredentialText, SeccompOf, SeccompText, SelinuxOf, SelinuxText, OrElse, OrEmpty;
    if want.Some? && got.Some? {
      var w, g := want.value, got.value;
      PrivilegeTexts(w);
      PrivilegeTexts(g);
      TextSays(f, "privileges.credentialSpec", CredentialText(w.credential), CredentialText(g.credential));
      BoolSays(f, "privileges.noNewPrivileges", w.noNew, g.noNew);
      TextSays(f, "privileges.seccomp", SeccompText(w.seccomp), SeccompText(g.seccomp));
      TextSays(f, "privileges.apparmor", OrEmpty(w.apparmor), OrEmpty(g.apparmor));
      TextSays(f, "privileges.selinux", SelinuxText(w.selinux), SelinuxText(g.selinux));
    }
  }

  lemma RuntimesSay(f: Field, w: Literal, g: Literal)
    ensures f in RuntimeFields(w, g) <==> SaysRuntime(f, w, g)
  {
    KeyedSays(f, Values, "containerLabels", OwnLabels(w.labels), OwnLabels(g.labels));
    PrivilegesSay(f, w.privileges, g.privileges);
    hide Keyed, SaysKeyed, PrivilegeFields, SaysPrivileges, OwnLabels;
  }

  lemma DriversSay(f: Field, want: Option<Driver>, got: Option<Driver>)
    ensures f in DriverFields(want, got) <==> SaysDriver(f, want, got)
  {
    hide Keyed, SaysKeyed;
    if want.Some? && got.Some? { KeyedSays(f, Values, "logDriver.options", want.value.options, got.value.options); }
  }

  /** Every difference is reported, under its field's name and with the manifest's
      value before the live one, and nothing else is. */
  lemma ReportsExactly(norm: string -> string, want: Spec, got: Spec, nets: Option<map<string, string>>, f: Field)
    ensures f in Fields(norm, want, got, nets) <==>
            SaysWorkload(f, norm, want, got) || SaysAccess(f, want, got, nets) || SaysPolicy(f, want, got) ||
            SaysScalar(f, Inside(want).literal, Inside(got).literal) || SaysCollection(f, Inside(want).literal, Inside(got).literal) ||
            SaysRuntime(f, Inside(want).literal, Inside(got).literal) || SaysDriver(f, want.logDriver, got.logDriver)
  {
    InsideIs(want);
    InsideIs(got);
    WorkloadSays(f, norm, want, got);
    AccessSays(f, want, got, nets);
    PolicySays(f, want, got);
    var w, g := Inside(want).literal, Inside(got).literal;
    ScalarsSay(f, w, g);
    CollectionsSay(f, w, g);
    RuntimesSay(f, w, g);
    DriversSay(f, want.logDriver, got.logDriver);
    hide WorkloadFields, AccessFields, PolicyFields, ScalarFields, CollectionFields, RuntimeFields, DriverFields, SaysWorkload, SaysAccess,
      SaysPolicy, SaysScalar, SaysCollection, SaysRuntime, SaysDriver, Inside, ContainerOf;
  }
}
