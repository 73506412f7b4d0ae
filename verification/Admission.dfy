/** What the gate's acceptance means for the stack, the swarm and the controller
    (backend/backend.go, rejectForbiddenResources).

    Gate asks its questions one after another. Here is what a stack has to be for
    all of them to pass, and what is the case when one does not. */
module Admission {
  import opened Text
  import opened Gate
  import Installs
  import Names

  // --- what the parts of a stack have to be ---

  ghost predicate Reserved(labels: map<string, string>) {
    exists k :: k in labels && "com.swarmcli." <= k
  }

  ghost predicate RecordLike(name: string) {
    "swarmcli.release." <= Fold(name)
  }

  ghost predicate Scoped(ns: string, name: string) {
    ns != "" && ns + "_" <= name
  }

  /** The network is of the stack this controller runs as. */
  ghost predicate Controllers(c: Context, name: string) {
    c.mine.namespace != "" && (name == c.mine.namespace || Scoped(c.mine.namespace, name))
  }

  ghost predicate HasNamespace(labels: map<string, string>, ns: string) {
    if "com.docker.stack.namespace" in labels then labels["com.docker.stack.namespace"] == ns else ns == ""
  }

  /** A release record bears the name. */
  ghost predicate Record(c: Context, name: string) {
    c.swarm.records.Some? && Fold(name) in c.swarm.records.value
  }

  ghost predicate External(ext: Named) {
    !Reserved(ext.labels) && !RecordLike(ext.name)
  }

  /** A secret a service mounts from outside: what the controller has mounted only
      its own stack mounts, what it was wired with nobody else does, and anything
      else takes a permission. */
  ghost predicate MountsSecret(c: Context, a: Allow, name: string) {
    if name in c.mine.secrets then c.mine.self else name !in c.mine.wired && name in a.secrets
  }

  /** A config likewise, and never a release record. */
  ghost predicate MountsConfig(c: Context, a: Allow, name: string) {
    c.swarm.records.Some? && !Record(c, name) && if name in c.mine.configs then c.mine.self else name in a.configs
  }

  /** The deploy creates the volume, under the stack's label. */
  ghost predicate Creates(m: Mount) {
    m.options.Some? && m.options.value.namespace != ""
  }

  ghost predicate GivesDriver(m: Mount, name: string) {
    m.kind == VolumeMount && m.source == name && m.options.Some? && m.options.value.driver.Some? &&
    (m.options.value.driver.value.name !in {"", "local"} || m.options.value.driver.value.options > 0)
  }

  /** A volume: the controller's own only by its own stack; one that the deploy
      creates only under the stack's name, held by no other stack, and given a driver
      only with a permission; any other only with a permission. */
  ghost predicate MountsVolume(c: Context, a: Allow, mounts: seq<Mount>, m: Mount) {
    if m.source in c.mine.volumes then c.mine.self
    else if !Creates(m) then m.source in a.volumes
    else
      Scoped(c.stack.ns, m.source) && c.swarm.volumeHolder(m.source).Some? && !HeldByAnother(c, m.source) &&
      ((exists d :: d in mounts && GivesDriver(d, m.source)) ==> m.source in a.volumes)
  }

  ghost predicate HeldByAnother(c: Context, name: string) {
    var holder := c.swarm.volumeHolder(name);
    holder.Some? && holder.value != c.stack.ns && Scoped(holder.value, name)
  }

  ghost predicate Declares(list: seq<Named>, name: string) {
    exists s :: s in list && s.name == name
  }

  ghost predicate Service(c: Context, a: Allow, container: Container) {
    && (forall n :: n in container.secrets && !Declares(c.stack.secrets, n) ==> MountsSecret(c, a, n))
    && (forall n :: n in container.configs && !Declares(c.stack.configs, n) ==> MountsConfig(c, a, n))
    && (forall m :: m in container.mounts && m.kind != OtherMount && m.source != "" ==> MountsVolume(c, a, container.mounts, m))
  }

  /** A declared name is permitted, or is the stack's by scope and by holder. */
  ghost predicate Own(ns: string, name: string, held: string -> Lookup) {
    Scoped(ns, name) && (held(name) == Absent || (held(name).Held? && HasNamespace(held(name).labels, ns)))
  }

  ghost predicate DeclaresSecret(c: Context, a: Allow, s: Named) {
    !Reserved(s.labels) && !RecordLike(s.name) && s.name !in c.mine.wired && s.name !in c.mine.secrets &&
    (s.name in a.secrets || Own(c.stack.ns, s.name, c.swarm.secretHeld))
  }

  ghost predicate DeclaresConfig(c: Context, a: Allow, s: Named) {
    !Reserved(s.labels) && !RecordLike(s.name) && s.name !in c.mine.configs &&
    c.swarm.records.Some? && !Record(c, s.name) &&
    (s.name in a.configs || Own(c.stack.ns, s.name, c.swarm.configHeld))
  }

  ghost predicate Joins(c: Context, a: Allow, name: string) {
    if Controllers(c, name) then c.mine.self else name in a.networks
  }

  /** Of the swarm's networks of the name, without regard to case, the first listed
      is another stack's. */
  ghost predicate NetworkHeld(c: Context, name: string) {
    c.swarm.networks.Some? &&
    var all := c.swarm.networks.value;
    exists i :: 0 <= i < |all| && Fold(all[i].name) == Fold(name) && !HasNamespace(all[i].labels, c.stack.ns) &&
      forall j :: 0 <= j < i ==> Fold(all[j].name) != Fold(name)
  }

  ghost predicate DeclaresNetwork(c: Context, a: Allow, name: string) {
    if Controllers(c, name) then c.mine.self
    else c.swarm.networks.Some? && !NetworkHeld(c, name) && (Scoped(c.stack.ns, name) || name in a.networks)
  }

  /** What a stack has to be. */
  ghost predicate Admitted(c: Context, a: Allow) {
    && (forall e :: e in c.stack.externalSecrets || e in c.stack.externalConfigs ==> External(e))
    && (forall svc :: svc in c.stack.services && svc.container.Some? ==> Service(c, a, svc.container.value))
    && (forall s :: s in c.stack.secrets ==> DeclaresSecret(c, a, s))
    && (forall s :: s in c.stack.configs ==> DeclaresConfig(c, a, s))
    && (forall n :: n in c.stack.externalNetworks ==> Joins(c, a, n))
    && (forall n :: n in c.stack.networks ==> DeclaresNetwork(c, a, n))
  }

  // --- one question at a time ---

  lemma DeclaredMeans(list: seq<Named>, n: string)
    ensures DeclaredIn(list, n) <==> Declares(list, n)
  {
    if s :| s in list && s.name == n {
      var i :| 0 <= i < |list| && list[i] == s;
      assert list[i].name == n;
    }
    if i :| 0 <= i < |list| && list[i].name == n {
      assert list[i] in list;
    }
  }

  lemma NamesMean(labels: map<string, string>, name: string, ns: string, c: Context)
    ensures HasReservedLabel(labels) <==> Reserved(labels)
    ensures NamedLikeARecord(name) <==> RecordLike(name)
    ensures Names.ScopedUnder(ns, name) <==> Scoped(ns, name)
    ensures InControllersStack(c.mine.namespace, name) <==> Controllers(c, name)
    ensures Installs.Label(labels, Installs.LABEL_NAMESPACE) == ns <==> HasNamespace(labels, ns)
  {
  }

  lemma ExternalMeans(kind: Kind, e: Named, c: Context)
    ensures ExternalVerdict(kind, e) == Pass <==> External(e)
  {
    NamesMean(e.labels, e.name, "", c);
    hide Reserved, RecordLike, HasReservedLabel, NamedLikeARecord;
  }

  lemma {:induction false} VolumesAmongMembers(mounts: seq<Mount>, m: Mount)
    ensures m in VolumesAmong(mounts) <==> m in mounts && m.kind != OtherMount && m.source != ""
    decreases |mounts|
  {
    if mounts != [] {
      VolumesAmongMembers(mounts[1..], m);
    }
  }

  lemma DrivenMeans(svc: Gate.Service, name: string)
    ensures DriverBacked(svc, name) <==>
            svc.container.Some? && exists d :: d in svc.container.value.mounts && GivesDriver(d, name)
  {
    if svc.container.Some? {
      var mounts := svc.container.value.mounts;
      if d :| d in mounts && GivesDriver(d, name) {
        var i :| 0 <= i < |mounts| && mounts[i] == d;
        assert Driven(mounts[i]) && mounts[i].source == name;
      }
      if i :| 0 <= i < |mounts| && Driven(mounts[i]) && mounts[i].source == name {
        assert mounts[i] in mounts && GivesDriver(mounts[i], name);
      }
    }
  }

  lemma VolumeMeans(c: Context, a: Allow, svc: Gate.Service, m: Mount)
    requires svc.container.Some?
    ensures VolumeVerdict(c, a, svc, m) == Pass <==> MountsVolume(c, a, svc.container.value.mounts, m)
  {
    DrivenMeans(svc, m.source);
    hide DriverBacked, GivesDriver;
  }

  lemma ServiceMeans(c: Context, a: Allow, svc: Gate.Service)
    ensures ServicePasses(c, a, svc) <==> (svc.container.Some? ==> Service(c, a, svc.container.value))
  {
    if svc.container.Some? {
      var k := svc.container.value;
      forall n ensures n in ExternalSecrets(c.stack, svc) <==> n in k.secrets && !Declares(c.stack.secrets, n) {
        DeclaredMeans(c.stack.secrets, n);
      }
      forall n ensures n in ExternalConfigs(c.stack, svc) <==> n in k.configs && !Declares(c.stack.configs, n) {
        DeclaredMeans(c.stack.configs, n);
      }
      forall m
        ensures m in VolumeSources(svc) <==> m in k.mounts && m.kind != OtherMount && m.source != ""
        ensures VolumeVerdict(c, a, svc, m) == Pass <==> MountsVolume(c, a, k.mounts, m)
      {
        VolumesAmongMembers(k.mounts, m);
        VolumeMeans(c, a, svc, m);
      }
      hide ExternalSecrets, ExternalConfigs, VolumeSources, Declares, VolumeVerdict, MountsVolume, Fold;
    }
  }

  lemma DeclaredVerdictMeans(kind: Kind, ns: string, allowed: seq<string>, name: string, held: string -> Lookup)
    ensures DeclaredVerdict(kind, ns, allowed, name, held) == Pass <==> name in allowed || Own(ns, name, held)
  {
  }

  lemma DeclarationMeans(c: Context, a: Allow, s: Named)
    ensures DeclaredSecretVerdict(c, a, s) == Pass <==> DeclaresSecret(c, a, s)
    ensures DeclaredConfigVerdict(c, a, s) == Pass <==> DeclaresConfig(c, a, s)
  {
    NamesMean(s.labels, s.name, "", c);
    DeclaredVerdictMeans(Secret, c.stack.ns, a.secrets, s.name, c.swarm.secretHeld);
    DeclaredVerdictMeans(Config, c.stack.ns, a.configs, s.name, c.swarm.configHeld);
    hide Reserved, RecordLike, HasReservedLabel, NamedLikeARecord, DeclaredVerdict, Own;
  }

  lemma {:induction false} HolderMeans(all: seq<Named>, name: string)
    ensures HolderOf(all, name).None? <==> forall i :: 0 <= i < |all| ==> Fold(all[i].name) != Fold(name)
    ensures HolderOf(all, name).Some? ==>
              exists i :: 0 <= i < |all| && Fold(all[i].name) == Fold(name) && HolderOf(all, name) == Some(all[i].labels) &&
                forall j :: 0 <= j < i ==> Fold(all[j].name) != Fold(name)
    decreases |all|
  {
    hide Fold;
    if all != [] && Fold(all[0].name) != Fold(name) {
      HolderMeans(all[1..], name);
      assert forall i :: 0 < i < |all| ==> all[i] == all[1..][i - 1];
      if HolderOf(all[1..], name).Some? {
        var k :| 0 <= k < |all| - 1 && Fold(all[1..][k].name) == Fold(name) && HolderOf(all[1..], name) == Some(all[1..][k].labels) &&
          forall j :: 0 <= j < k ==> Fold(all[1..][j].name) != Fold(name);
        assert all[k + 1] == all[1..][k];
      }
    }
  }

  lemma NetworkMeans(c: Context, a: Allow, name: string)
    ensures JoinVerdict(c, a, name) == Pass <==> Joins(c, a, name)
    ensures NetworkVerdict(c, a, name) == Pass <==> DeclaresNetwork(c, a, name)
  {
    NamesMean(map[], name, c.stack.ns, c);
    if c.swarm.networks.Some? {
      var all := c.swarm.networks.value;
      HolderMeans(all, name);
      var held := HolderOf(all, name);
      if held.Some? { NamesMean(held.value, name, c.stack.ns, c); }
    }
    hide Fold, HolderOf, Installs.Label, HasNamespace, Scoped, Names.ScopedUnder, Controllers, InControllersStack;
  }

  /** The gate accepts a stack exactly when it is what a stack has to be. */
  lemma AcceptsExactly(c: Context, a: Allow)
    ensures Accepts(c, a) <==> Admitted(c, a)
  {
    AcceptsIsPasses(c, a);
    forall e ensures ExternalVerdict(Secret, e) == Pass <==> External(e) { ExternalMeans(Secret, e, c); }
    forall e ensures ExternalVerdict(Config, e) == Pass <==> External(e) { ExternalMeans(Config, e, c); }
    forall svc ensures ServicePasses(c, a, svc) <==> (svc.container.Some? ==> Service(c, a, svc.container.value)) {
      ServiceMeans(c, a, svc);
    }
    forall s
      ensures DeclaredSecretVerdict(c, a, s) == Pass <==> DeclaresSecret(c, a, s)
      ensures DeclaredConfigVerdict(c, a, s) == Pass <==> DeclaresConfig(c, a, s)
    {
      DeclarationMeans(c, a, s);
    }
    forall n
      ensures JoinVerdict(c, a, n) == Pass <==> Joins(c, a, n)
      ensures NetworkVerdict(c, a, n) == Pass <==> DeclaresNetwork(c, a, n)
    {
      NetworkMeans(c, a, n);
    }
    hide Accepts, ExternalVerdict, External, ServicePasses, Service, DeclaredSecretVerdict, DeclaresSecret,
      DeclaredConfigVerdict, DeclaresConfig, JoinVerdict, Joins, NetworkVerdict, DeclaresNetwork;
  }

  // --- what a refusal says ---

  /** Some service of that name mounts from outside, or mounts as a volume, this. */
  ghost predicate ReachesSecret(c: Context, service: string, name: string) {
    !Declares(c.stack.secrets, name) &&
    exists svc :: svc in c.stack.services && svc.name == service && svc.container.Some? && name in svc.container.value.secrets
  }

  ghost predicate ReachesConfig(c: Context, service: string, name: string) {
    !Declares(c.stack.configs, name) &&
    exists svc :: svc in c.stack.services && svc.name == service && svc.container.Some? && name in svc.container.value.configs
  }

  ghost predicate ReachesVolume(c: Context, service: string, mounts: seq<Mount>, m: Mount) {
    m in mounts && m.kind != OtherMount && m.source != "" &&
    exists svc :: svc in c.stack.services && svc.name == service && svc.container.Some? && svc.container.value.mounts == mounts
  }

  ghost predicate ListsAs(list: seq<Named>, name: string, labelled: bool) {
    exists s :: s in list && s.name == name && (labelled ==> Reserved(s.labels))
  }

  /** What is the case when the gate refuses. */
  ghost predicate Explains(c: Context, a: Allow, r: Refusal) {
    match r
    case ReservedExternal(kind, name) =>
      RecordLike(name) && ((kind == Secret && ListsAs(c.stack.externalSecrets, name, false)) ||
                           (kind == Config && ListsAs(c.stack.externalConfigs, name, false)))
    case ReservedLabel(kind, name) =>
      (kind == Secret && (ListsAs(c.stack.externalSecrets, name, true) || ListsAs(c.stack.secrets, name, true))) ||
      (kind == Config && (ListsAs(c.stack.externalConfigs, name, true) || ListsAs(c.stack.configs, name, true)))
    case MountsForbidden(service, kind, name) =>
      (kind == Secret && ReachesSecret(c, service, name) && if name in c.mine.secrets then !c.mine.self else name in c.mine.wired) ||
      (kind == Config && ReachesConfig(c, service, name) && (Record(c, name) || (name in c.mine.configs && !c.mine.self))) ||
      (kind == Volume && name in c.mine.volumes && !c.mine.self &&
       exists mounts, m :: ReachesVolume(c, service, mounts, m) && m.source == name)
    case MountsUnpermitted(service, kind, name) =>
      (kind == Secret && ReachesSecret(c, service, name) && name !in a.secrets && name !in c.mine.secrets) ||
      (kind == Config && ReachesConfig(c, service, name) && name !in a.configs && name !in c.mine.configs) ||
      (kind == Volume && name !in a.volumes && name !in c.mine.volumes &&
       exists mounts, m :: ReachesVolume(c, service, mounts, m) && m.source == name && !Creates(m))
    case MountsForeignVolume(service, name) =>
      !Scoped(c.stack.ns, name) && exists mounts, m :: ReachesVolume(c, service, mounts, m) && m.source == name && Creates(m)
    case MountsHeldVolume(service, name, holder) =>
      c.swarm.volumeHolder(name) == Some(holder) && HeldByAnother(c, name) &&
      exists mounts, m :: ReachesVolume(c, service, mounts, m) && m.source == name && Creates(m)
    case MountsDriverUnpermitted(service, name) =>
      name !in a.volumes &&
      exists mounts, m, d :: ReachesVolume(c, service, mounts, m) && m.source == name && Creates(m) && d in mounts && GivesDriver(d, name)
    case DeclaresForbidden(kind, name) =>
      (kind == Secret && ListsAs(c.stack.secrets, name, false) &&
       (RecordLike(name) || name in c.mine.wired || name in c.mine.secrets)) ||
      (kind == Config && ListsAs(c.stack.configs, name, false) &&
       (RecordLike(name) || name in c.mine.configs || Record(c, name)))
    case DeclaresUnpermitted(kind, name) =>
      (kind == Secret && ListsAs(c.stack.secrets, name, false) && name !in a.secrets && !Own(c.stack.ns, name, c.swarm.secretHeld)) ||
      (kind == Config && ListsAs(c.stack.configs, name, false) && name !in a.configs && !Own(c.stack.ns, name, c.swarm.configHeld))
    case JoinsForbidden(name) =>
      Controllers(c, name) && !c.mine.self && (name in c.stack.externalNetworks || name in c.stack.networks)
    case JoinsUnpermitted(name) =>
      name !in a.networks && !Controllers(c, name) &&
      (name in c.stack.externalNetworks || (name in c.stack.networks && !Scoped(c.stack.ns, name)))
    case DeclaresHeldNetwork(name) => name in c.stack.networks && NetworkHeld(c, name)
  }

  /** A read the gate needs failed. */
  ghost predicate ReadFails(c: Context) {
    c.swarm.records.None? || c.swarm.networks.None? || (exists n :: c.swarm.volumeHolder(n).None?) ||
    (exists n :: c.swarm.secretHeld(n) == ReadFailed) || exists n :: c.swarm.configHeld(n) == ReadFailed
  }

  /** A verdict says what is the case. */
  ghost predicate Honest(c: Context, a: Allow, v: Verdict) {
    match v
    case Pass => true
    case Unread => ReadFails(c)
    case Refused(r) => Explains(c, a, r)
  }

  lemma ExternalIsHonest(c: Context, a: Allow, kind: Kind, e: Named)
    requires kind == Secret ==> e in c.stack.externalSecrets
    requires kind == Config ==> e in c.stack.externalConfigs
    requires kind != Volume
    ensures Honest(c, a, ExternalVerdict(kind, e))
  {
    NamesMean(e.labels, e.name, "", c);
    hide Fold, Reserved, RecordLike, HasReservedLabel, NamedLikeARecord;
  }

  lemma SecretIsHonest(c: Context, a: Allow, svc: Gate.Service, n: string)
    requires svc in c.stack.services && n in ExternalSecrets(c.stack, svc)
    ensures Honest(c, a, SecretVerdict(c, a, svc.name, n))
  {
    DeclaredMeans(c.stack.secrets, n);
    hide DeclaredIn, Declares;
  }

  lemma ConfigIsHonest(c: Context, a: Allow, svc: Gate.Service, n: string)
    requires svc in c.stack.services && n in ExternalConfigs(c.stack, svc)
    ensures Honest(c, a, ConfigVerdict(c, a, svc.name, n))
  {
    DeclaredMeans(c.stack.configs, n);
    hide DeclaredIn, Declares, Fold;
  }

  lemma VolumeIsHonest(c: Context, a: Allow, svc: Gate.Service, m: Mount)
    requires svc in c.stack.services && m in VolumeSources(svc)
    ensures Honest(c, a, VolumeVerdict(c, a, svc, m))
  {
    var mounts := svc.container.value.mounts;
    VolumesAmongMembers(mounts, m);
    DrivenMeans(svc, m.source);
    NamesMean(map[], m.source, c.stack.ns, c);
    assert ReachesVolume(c, svc.name, mounts, m);
    hide VolumesAmong, DriverBacked, GivesDriver, Fold, Reserved, RecordLike, ReachesSecret, ReachesConfig, ReachesVolume, ListsAs, Record;
  }

  lemma DeclarationIsHonest(c: Context, a: Allow, s: Named)
    ensures s in c.stack.secrets ==> Honest(c, a, DeclaredSecretVerdict(c, a, s))
    ensures s in c.stack.configs ==> Honest(c, a, DeclaredConfigVerdict(c, a, s))
  {
    NamesMean(s.labels, s.name, c.stack.ns, c);
    DeclaredVerdictMeans(Secret, c.stack.ns, a.secrets, s.name, c.swarm.secretHeld);
    DeclaredVerdictMeans(Config, c.stack.ns, a.configs, s.name, c.swarm.configHeld);
    hide Fold, Reserved, RecordLike, HasReservedLabel, NamedLikeARecord, Own;
  }

  lemma NetworkIsHonest(c: Context, a: Allow, n: string)
    ensures n in c.stack.externalNetworks ==> Honest(c, a, JoinVerdict(c, a, n))
    ensures n in c.stack.networks ==> Honest(c, a, NetworkVerdict(c, a, n))
  {
    NamesMean(map[], n, c.stack.ns, c);
    if c.swarm.networks.Some? {
      var all := c.swarm.networks.value;
      HolderMeans(all, n);
      var held := HolderOf(all, n);
      if held.Some? { NamesMean(held.value, n, c.stack.ns, c); }
    }
    hide Fold, HolderOf, Installs.Label, HasNamespace, Scoped, Names.ScopedUnder, Controllers, InControllersStack;
  }

  lemma {:induction false} FirstIsMember(vs: seq<Verdict>)
    ensures First(vs) == Pass || First(vs) in vs
    decreases |vs|
  {
    if vs != [] {
      FirstIsMember(vs[1..]);
    }
  }

  lemma FirstIsAsked<T>(xs: seq<T>, f: T -> Verdict)
    ensures First(Map(xs, f)) == Pass || exists x :: x in xs && f(x) == First(Map(xs, f))
  {
    FirstIsMember(Map(xs, f));
    if First(Map(xs, f)) != Pass {
      var i :| 0 <= i < |xs| && Map(xs, f)[i] == First(Map(xs, f));
      assert xs[i] in xs;
    }
  }

  lemma ServiceIsHonest(c: Context, a: Allow, svc: Gate.Service)
    requires svc in c.stack.services
    ensures Honest(c, a, First(ServiceVerdicts(c, a, svc)))
  {
    var secrets := (n: string) => SecretVerdict(c, a, svc.name, n);
    var configs := (n: string) => ConfigVerdict(c, a, svc.name, n);
    var volumes := (m: Mount) => VolumeVerdict(c, a, svc, m);
    hide Honest, SecretVerdict, ConfigVerdict, VolumeVerdict, ExternalSecrets, ExternalConfigs, VolumeSources, First, Map;
    assert Honest(c, a, Pass) by { PassIsHonest(c, a); }
    FirstIsAsked(ExternalSecrets(c.stack, svc), secrets);
    FirstIsAsked(ExternalConfigs(c.stack, svc), configs);
    FirstIsAsked(VolumeSources(svc), volumes);
    forall n | n in ExternalSecrets(c.stack, svc) ensures Honest(c, a, SecretVerdict(c, a, svc.name, n)) { SecretIsHonest(c, a, svc, n); }
    forall n | n in ExternalConfigs(c.stack, svc) ensures Honest(c, a, ConfigVerdict(c, a, svc.name, n)) { ConfigIsHonest(c, a, svc, n); }
    forall m | m in VolumeSources(svc) ensures Honest(c, a, VolumeVerdict(c, a, svc, m)) { VolumeIsHonest(c, a, svc, m); }
    FirstConcat(Map(ExternalSecrets(c.stack, svc), secrets) + Map(ExternalConfigs(c.stack, svc), configs),
      Map(VolumeSources(svc), volumes));
    FirstConcat(Map(ExternalSecrets(c.stack, svc), secrets), Map(ExternalConfigs(c.stack, svc), configs));
  }

  lemma PassIsHonest(c: Context, a: Allow)
    ensures Honest(c, a, Pass)
  {
  }

  lemma {:induction false} ServicesAreHonest(c: Context, a: Allow, services: seq<Gate.Service>)
    requires forall svc :: svc in services ==> svc in c.stack.services
    ensures Honest(c, a, First(ServicesVerdicts(c, a, services)))
    decreases |services|
  {
    hide Honest, ServiceVerdicts;
    if services == [] {
      PassIsHonest(c, a);
    } else {
      var n := |services| - 1;
      ServicesAreHonest(c, a, services[..n]);
      ServiceIsHonest(c, a, services[n]);
      FirstConcat(ServicesVerdicts(c, a, services[..n]), ServiceVerdicts(c, a, services[n]));
    }
  }

  /** The gate never says what is not so: a refusal names something of the stack and
      what it reaches for without being let to, and no answer means that a read
      failed. */
  lemma RefusalsAreHonest(c: Context, a: Allow)
    ensures Honest(c, a, First(Verdicts(c, a)))
  {
    var es, ec := (e: Named) => ExternalVerdict(Secret, e), (e: Named) => ExternalVerdict(Config, e);
    var ds, dc := (s: Named) => DeclaredSecretVerdict(c, a, s), (s: Named) => DeclaredConfigVerdict(c, a, s);
    var js, ns := (n: string) => JoinVerdict(c, a, n), (n: string) => NetworkVerdict(c, a, n);
    hide Honest, ExternalVerdict, DeclaredSecretVerdict, DeclaredConfigVerdict, JoinVerdict, NetworkVerdict, First, Map, ServicesVerdicts;
    PassIsHonest(c, a);
    FirstOfSeven(Map(c.stack.externalSecrets, es), Map(c.stack.externalConfigs, ec), ServicesVerdicts(c, a, c.stack.services),
      Map(c.stack.secrets, ds), Map(c.stack.configs, dc), Map(c.stack.externalNetworks, js), Map(c.stack.networks, ns));
    FirstIsAsked(c.stack.externalSecrets, es);
    FirstIsAsked(c.stack.externalConfigs, ec);
    ServicesAreHonest(c, a, c.stack.services);
    FirstIsAsked(c.stack.secrets, ds);
    FirstIsAsked(c.stack.configs, dc);
    FirstIsAsked(c.stack.externalNetworks, js);
    FirstIsAsked(c.stack.networks, ns);
    forall e | e in c.stack.externalSecrets ensures Honest(c, a, es(e)) { ExternalIsHonest(c, a, Secret, e); }
    forall e | e in c.stack.externalConfigs ensures Honest(c, a, ec(e)) { ExternalIsHonest(c, a, Config, e); }
    forall s | s in c.stack.secrets ensures Honest(c, a, ds(s)) { DeclarationIsHonest(c, a, s); }
    forall s | s in c.stack.configs ensures Honest(c, a, dc(s)) { DeclarationIsHonest(c, a, s); }
    forall n | n in c.stack.externalNetworks ensures Honest(c, a, js(n)) { NetworkIsHonest(c, a, n); }
    forall n | n in c.stack.networks ensures Honest(c, a, ns(n)) { NetworkIsHonest(c, a, n); }
  }
}
