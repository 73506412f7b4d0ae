/** What it means for the specs themselves that a live comparison is silent
    (drift/live.go).

    Specs compares normal forms. Here silence is said of the fields a manifest and
    the daemon hold: which of them are equal, as what, and up to which default. Where
    a rendering joins several values into one text, what is needed for the text to
    tell them apart is said too. */
module Silence {
  import opened Text
  import opened Specs
  import opened Renderings
  import Installs
  import Services

  /** Equal, or one of them unset and the other its default. */
  ghost predicate UpTo(otherwise: string, a: string, b: string) {
    a == b || (a == "" && b == otherwise) || (a == otherwise && b == "")
  }

  lemma NonEmptyAgrees(otherwise: string, a: string, b: string)
    ensures NonEmpty(a, otherwise) == NonEmpty(b, otherwise) <==> UpTo(otherwise, a, b)
  {
  }

  ghost predicate HasLike<T(!new)>(x: T, ys: seq<T>, like: (T, T) -> bool) {
    exists j :: 0 <= j < |ys| && like(x, ys[j])
  }

  /** Each of one list has its like in the other, and conversely. */
  ghost predicate Matched<T(!new)>(xs: seq<T>, ys: seq<T>, like: (T, T) -> bool) {
    (forall i :: 0 <= i < |xs| ==> HasLike(xs[i], ys, like)) && forall j :: 0 <= j < |ys| ==> HasLike(ys[j], xs, like)
  }

  ghost predicate SamePairs<T(!new)>(xs: seq<T>, ys: seq<T>, entry: T -> Option<Pair>) {
    forall k, v :: Holds(xs, entry, k, v) <==> Holds(ys, entry, k, v)
  }

  lemma HoldsLike<T(!new)>(x: T, ys: seq<T>, entry: T -> Option<Pair>, like: (T, T) -> bool)
    requires entry(x).Some? && forall y :: y in ys ==> (entry(x) == entry(y) <==> like(x, y))
    ensures Holds(ys, entry, entry(x).value.key, entry(x).value.value) <==> HasLike(x, ys, like)
  {
    if j :| 0 <= j < |ys| && like(x, ys[j]) {
      assert ys[j] in ys && entry(ys[j]) == Some(Pair(entry(x).value.key, entry(x).value.value));
    }
    if j :| 0 <= j < |ys| && entry(ys[j]) == Some(Pair(entry(x).value.key, entry(x).value.value)) {
      assert ys[j] in ys && like(x, ys[j]);
    }
  }

  lemma HoldsOwn<T(!new)>(xs: seq<T>, entry: T -> Option<Pair>, i: nat)
    requires i < |xs| && entry(xs[i]).Some?
    ensures Holds(xs, entry, entry(xs[i]).value.key, entry(xs[i]).value.value)
  {
    assert entry(xs[i]) == Some(Pair(entry(xs[i]).value.key, entry(xs[i]).value.value));
  }

  /** What is held once is held on the other side, if each has its like there. */
  lemma LikesHold<T(!new)>(xs: seq<T>, ys: seq<T>, entry: T -> Option<Pair>, like: (T, T) -> bool)
    requires forall x :: x in xs || x in ys ==> entry(x).Some?
    requires forall x, y :: x in xs && y in ys ==> (entry(x) == entry(y) <==> like(x, y))
    ensures (forall i :: 0 <= i < |xs| ==> HasLike(xs[i], ys, like)) <==>
            (forall k, v :: Holds(xs, entry, k, v) ==> Holds(ys, entry, k, v))
  {
    forall i | 0 <= i < |xs|
      ensures Holds(ys, entry, entry(xs[i]).value.key, entry(xs[i]).value.value) <==> HasLike(xs[i], ys, like)
      ensures Holds(xs, entry, entry(xs[i]).value.key, entry(xs[i]).value.value)
    {
      assert xs[i] in xs;
      HoldsLike(xs[i], ys, entry, like);
      HoldsOwn(xs, entry, i);
    }
    forall k, v | Holds(xs, entry, k, v)
      ensures exists i :: 0 <= i < |xs| && entry(xs[i]) == Some(Pair(k, v))
    {
    }
    hide HasLike;
    if forall i :: 0 <= i < |xs| ==> HasLike(xs[i], ys, like) {
      forall k, v | Holds(xs, entry, k, v) ensures Holds(ys, entry, k, v) {
        var i :| 0 <= i < |xs| && entry(xs[i]) == Some(Pair(k, v));
      }
    }
  }

  /** Holding the same pairs is being matched, when every entry has a pair and pairs
      are equal for what is alike. */
  lemma HoldsMatched<T(!new)>(xs: seq<T>, ys: seq<T>, entry: T -> Option<Pair>, like: (T, T) -> bool)
    requires forall x :: x in xs || x in ys ==> entry(x).Some?
    requires forall x, y :: (x in xs && y in ys) || (x in ys && y in xs) ==> (entry(x) == entry(y) <==> like(x, y))
    ensures SamePairs(xs, ys, entry) <==> Matched(xs, ys, like)
  {
    LikesHold(xs, ys, entry, like);
    LikesHold(ys, xs, entry, like);
    hide Holds, HasLike;
  }

  // --- mounts ---

  ghost predicate SameMount(m: Mount, n: Mount) {
    m.target == n.target && m.source == n.source && m.readOnly == n.readOnly && UpTo("bind", m.kind, n.kind)
  }

  ghost predicate EndsWith(s: string, t: string) {
    |s| >= |t| && s[|s| - |t|..] == t
  }

  /** Its rendering tells its kind, its source and whether it is read-only apart. */
  ghost predicate PlainMount(m: Mount) {
    ':' !in m.kind && m.source != "(anonymous)" && !EndsWith(m.source, " (read-only)")
  }

  ghost predicate PlainMounts(ms: seq<Mount>) {
    (forall m :: m in ms ==> PlainMount(m)) && forall i, j :: 0 <= i < j < |ms| ==> ms[i].target != ms[j].target
  }

  lemma MountsRender(m: Mount, n: Mount)
    requires PlainMount(m) && PlainMount(n)
    ensures MountEntry(m) == MountEntry(n) <==> SameMount(m, n)
  {
    var a, b := NonEmpty(m.kind, "bind"), NonEmpty(n.kind, "bind");
    var x, y := NonEmpty(m.source, "(anonymous)"), NonEmpty(n.source, "(anonymous)");
    var p, q := x + (if m.readOnly then " (read-only)" else ""), y + (if n.readOnly then " (read-only)" else "");
    NonEmptyAgrees("bind", m.kind, n.kind);
    NonEmptyAgrees("(anonymous)", m.source, n.source);
    MountText(m);
    MountText(n);
    assert ':' !in a && ':' !in b;
    SuffixesShow(m.source, n.source, m.readOnly, n.readOnly);
    hide MountEntry, NonEmpty, EndsWith;
    if MountEntry(m) == MountEntry(n) { FirstSplits(':', a, p, b, q); }
  }

  lemma MountText(m: Mount)
    ensures MountEntry(m) ==
            Some(Pair(m.target, NonEmpty(m.kind, "bind") + [':'] +
                                (NonEmpty(m.source, "(anonymous)") + (if m.readOnly then " (read-only)" else ""))))
  {
    var k, s, r := NonEmpty(m.kind, "bind"), NonEmpty(m.source, "(anonymous)"), if m.readOnly then " (read-only)" else "";
    assert k + ":" + s + r == k + [':'] + (s + r);
  }

  lemma SuffixesShow(s: string, t: string, r: bool, q: bool)
    requires s != "(anonymous)" && !EndsWith(s, " (read-only)") && t != "(anonymous)" && !EndsWith(t, " (read-only)")
    ensures (NonEmpty(s, "(anonymous)") + (if r then " (read-only)" else "") ==
             NonEmpty(t, "(anonymous)") + (if q then " (read-only)" else "")) <==> s == t && r == q
  {
    var x, y := NonEmpty(s, "(anonymous)"), NonEmpty(t, "(anonymous)");
    assert !EndsWith(x, " (read-only)") && !EndsWith(y, " (read-only)");
    SuffixTells(x, y, " (read-only)", r, q);
  }

  lemma MountKeysDiffer(ms: seq<Mount>)
    requires PlainMounts(ms)
    ensures KeysDiffer(ms, MountEntry)
  {
  }

  /** Mounts are silent exactly when each wanted one is there, on its target, of its
      source, as readable and of its kind, and no other is. */
  lemma MountsAgree(xs: seq<Mount>, ys: seq<Mount>)
    requires PlainMounts(xs) && PlainMounts(ys)
    ensures IndexOf(xs, MountEntry) == IndexOf(ys, MountEntry) <==> Matched(xs, ys, SameMount)
  {
    MountKeysDiffer(xs);
    MountKeysDiffer(ys);
    IndexesAgree(xs, ys, MountEntry);
    forall x, y | (x in xs && y in ys) || (x in ys && y in xs) ensures MountEntry(x) == MountEntry(y) <==> SameMount(x, y) {
      MountsRender(x, y);
    }
    hide Holds, IndexOf;
    HoldsMatched(xs, ys, MountEntry, SameMount);
  }

  // --- ports ---

  ghost predicate SamePort(p: Port, q: Port) {
    p.published == q.published && p.target == q.target && UpTo("tcp", p.protocol, q.protocol) && UpTo("ingress", p.mode, q.mode)
  }

  lemma PortText(p: Port)
    ensures PortKey(p) ==
            (if p.published == 0 then "dynamic" else Decimal(p.published)) + [':'] +
            (Decimal(p.target) + ['/'] + (NonEmpty(p.protocol, "tcp") + ['/'] + NonEmpty(p.mode, "ingress")))
  {
    var a, b := if p.published == 0 then "dynamic" else Decimal(p.published), Decimal(p.target);
    var x, y := NonEmpty(p.protocol, "tcp"), NonEmpty(p.mode, "ingress");
    assert a + ":" + b + "/" + x + "/" + y == a + [':'] + (b + ['/'] + (x + ['/'] + y));
  }

  /** A published port is not "dynamic", and numbers hold neither separator. */
  lemma PublishedShows(m: nat, n: nat)
    ensures var a, b := if m == 0 then "dynamic" else Decimal(m), if n == 0 then "dynamic" else Decimal(n);
            ':' !in a && '/' !in Decimal(m) && (a == b <==> m == n)
  {
    DecimalIsOneToOne(m, n);
    DecimalIsOneToOne(n, m);
    assert "dynamic"[0] == 'd' && !IsDigit('d') && ':' !in "dynamic";
    hide Decimal;
  }

  lemma PortsRender(p: Port, q: Port)
    requires '/' !in p.protocol && '/' !in q.protocol
    ensures PortKey(p) == PortKey(q) <==> SamePort(p, q)
  {
    PortText(p);
    PortText(q);
    PublishedShows(p.published, q.published);
    PublishedShows(q.published, p.published);
    PublishedShows(p.target, q.target);
    PublishedShows(q.target, p.target);
    DecimalIsOneToOne(p.target, q.target);
    NonEmptyAgrees("tcp", p.protocol, q.protocol);
    NonEmptyAgrees("ingress", p.mode, q.mode);
    var a, b := if p.published == 0 then "dynamic" else Decimal(p.published), if q.published == 0 then "dynamic" else Decimal(q.published);
    var x, y := NonEmpty(p.protocol, "tcp"), NonEmpty(q.protocol, "tcp");
    var v, w := NonEmpty(p.mode, "ingress"), NonEmpty(q.mode, "ingress");
    assert '/' !in x && '/' !in y;
    hide PortKey, Decimal, NonEmpty, UpTo;
    if PortKey(p) == PortKey(q) {
      FirstSplits(':', a, Decimal(p.target) + ['/'] + (x + ['/'] + v), b, Decimal(q.target) + ['/'] + (y + ['/'] + w));
      FirstSplits('/', Decimal(p.target), x + ['/'] + v, Decimal(q.target), y + ['/'] + w);
      FirstSplits('/', x, v, y, w);
    }
  }

  ghost function PortsOf(e: Option<Endpoint>): seq<Port> {
    match e case None => [] case Some(endpoint) => endpoint.ports
  }

  ghost predicate PlainPorts(ps: seq<Port>) {
    forall p :: p in ps ==> '/' !in p.protocol
  }

  lemma PortOneMore(ps: seq<Port>, last: Port, k: string, v: string)
    ensures Holds(ps + [last], PortEntry, k, v) <==> Holds(ps, PortEntry, k, v) || PortEntry(last) == Some(Pair(k, v))
  {
    hide PortKey;
    var all := ps + [last];
    assert all[|ps|] == last && forall i :: 0 <= i < |ps| ==> all[i] == ps[i];
    if i :| 0 <= i < |ps| && PortEntry(ps[i]) == Some(Pair(k, v)) {
      assert PortEntry(all[i]) == Some(Pair(k, v));
    }
  }

  /** The set holds exactly the ports' renderings: all have one value. */
  lemma {:induction false} PortIsRelation(ps: seq<Port>, k: string, v: string)
    ensures At(IndexOf(ps, PortEntry), k, v) <==> Holds(ps, PortEntry, k, v)
    ensures At(IndexOf(ps, PortEntry), k, v) ==> v == ""
    decreases |ps|
  {
    hide PortKey;
    if ps != [] {
      var n := |ps| - 1;
      PortIsRelation(ps[..n], k, v);
      PortIsRelation(ps[..n], k, "");
      assert ps == ps[..n] + [ps[n]];
      PortOneMore(ps[..n], ps[n], k, v);
      hide Holds;
      var before := IndexOf(ps[..n], PortEntry);
      if k in before { PortIsRelation(ps[..n], k, before[k]); }
    }
  }

  /** Ports are silent exactly when each wanted one is published, and no other is. */
  lemma PortsAgree(xs: seq<Port>, ys: seq<Port>)
    requires PlainPorts(xs) && PlainPorts(ys)
    ensures IndexOf(xs, PortEntry) == IndexOf(ys, PortEntry) <==> Matched(xs, ys, SamePort)
  {
    forall x, y | (x in xs && y in ys) || (x in ys && y in xs) ensures PortEntry(x) == PortEntry(y) <==> SamePort(x, y) {
      PortsRender(x, y);
    }
    hide IndexOf, PortKey, PlainPorts, SamePort, Holds, At, Matched;
    HoldsMatched(xs, ys, PortEntry, SamePort);
    MapsAgree(IndexOf(xs, PortEntry), IndexOf(ys, PortEntry));
    forall k, v
      ensures At(IndexOf(xs, PortEntry), k, v) <==> Holds(xs, PortEntry, k, v)
      ensures At(IndexOf(ys, PortEntry), k, v) <==> Holds(ys, PortEntry, k, v)
    {
      PortIsRelation(xs, k, v);
      PortIsRelation(ys, k, v);
    }
  }

  // --- labels ---

  /** The operator's labels: all but the two that a stack deploy writes. */
  ghost predicate SameLabels(a: map<string, string>, b: map<string, string>) {
    forall k :: k != "com.docker.stack.namespace" && k != "com.docker.stack.image" ==>
      (k in a <==> k in b) && (k in a ==> a[k] == b[k])
  }

  lemma LabelsAgree(a: map<string, string>, b: map<string, string>)
    ensures OwnLabels(a) == OwnLabels(b) <==> SameLabels(a, b)
  {
    var x, y := OwnLabels(a), OwnLabels(b);
    assert forall k :: k in x <==> k in a && k != "com.docker.stack.namespace" && k != "com.docker.stack.image";
    assert forall k :: k in y <==> k in b && k != "com.docker.stack.namespace" && k != "com.docker.stack.image";
    if SameLabels(a, b) {
      assert forall k :: k in x <==> k in y;
      assert forall k :: k in x ==> x[k] == y[k];
    }
    if x == y {
      forall k | k != "com.docker.stack.namespace" && k != "com.docker.stack.image"
        ensures (k in a <==> k in b) && (k in a ==> a[k] == b[k])
      {
        assert k in a <==> k in x;
        assert k in b <==> k in y;
      }
    }
  }

  // --- environment ---

  /** The entry is of the variable k: "k=value", or k alone. */
  ghost predicate OfVariable(e: string, k: string) {
    '=' !in k && (e == k || k + "=" <= e)
  }

  /** The last entry of the variable sets it to v; k alone sets it to nothing. */
  ghost predicate Sets(env: seq<string>, k: string, v: string) {
    exists i :: 0 <= i < |env| && '=' !in k && (env[i] == k + "=" + v || (env[i] == k && v == "")) &&
      forall j :: i < j < |env| ==> !OfVariable(env[j], k)
  }

  lemma {:induction false} CutIs(e: string)
    ensures var p := CutAt(e, '=');
            '=' !in p.key && (if '=' in e then e == p.key + "=" + p.value else e == p.key && p.value == "")
  {
    if e != "" && e[0] != '=' {
      CutIs(e[1..]);
      var rest := CutAt(e[1..], '=');
      assert e == [e[0]] + e[1..];
      if '=' in e {
        assert '=' in e[1..];
        assert [e[0]] + (rest.key + "=" + rest.value) == ([e[0]] + rest.key) + "=" + rest.value;
      }
    } else if e != "" {
      assert e == "" + "=" + e[1..];
    }
  }

  lemma EntryIs(e: string, k: string, v: string)
    ensures EnvEntry(e) == Some(Pair(k, v)) <==> '=' !in k && (e == k + "=" + v || (e == k && v == ""))
    ensures CutAt(e, '=').key == k <==> OfVariable(e, k)
  {
    CutIs(e);
    var p := CutAt(e, '=');
    hide CutAt;
    if '=' !in k && e == k + "=" + v {
      assert e[|k|] == '=';
      FirstSplits('=', p.key, p.value, k, v);
    }
    if '=' !in k && k + "=" <= e {
      var rest := e[|k| + 1..];
      assert e == k + ['='] + rest && e[|k|] == '=';
      FirstSplits('=', p.key, p.value, k, rest);
    }
    if p.key == k && '=' in e {
      assert k + "=" == e[..|k| + 1];
    }
  }

  lemma SetsIsLast(env: seq<string>, k: string, v: string)
    ensures Sets(env, k, v) <==> LastHolds(env, EnvEntry, k, v)
  {
    forall i | 0 <= i < |env|
      ensures EnvEntry(env[i]) == Some(Pair(k, v)) <==> '=' !in k && (env[i] == k + "=" + v || (env[i] == k && v == ""))
      ensures EnvEntry(env[i]).Some? && (EnvEntry(env[i]).value.key == k <==> OfVariable(env[i], k))
    {
      EntryIs(env[i], k, v);
    }
    hide CutAt, OfVariable, EnvEntry;
  }

  /** Environments are silent exactly when they set the same variables to the same
      values. */
  lemma EnvironmentsAgree(xs: seq<string>, ys: seq<string>)
    ensures IndexOf(xs, EnvEntry) == IndexOf(ys, EnvEntry) <==> forall k, v :: Sets(xs, k, v) <==> Sets(ys, k, v)
  {
    hide IndexOf, Sets, LastHolds, At;
    MapsAgree(IndexOf(xs, EnvEntry), IndexOf(ys, EnvEntry));
    forall k, v
      ensures At(IndexOf(xs, EnvEntry), k, v) <==> Sets(xs, k, v)
      ensures At(IndexOf(ys, EnvEntry), k, v) <==> Sets(ys, k, v)
    {
      IndexIsLast(xs, EnvEntry, k, v);
      IndexIsLast(ys, EnvEntry, k, v);
      SetsIsLast(xs, k, v);
      SetsIsLast(ys, k, v);
    }
  }

  // --- secrets, configs, ulimits ---

  /** A secret that is mounted as a file. */
  ghost predicate IsFile(r: Option<SecretRef>) {
    r.Some? && r.value.file.Some?
  }

  ghost predicate PlainSecrets(rs: seq<Option<SecretRef>>) {
    forall r :: r in rs && IsFile(r) ==> NoComma(r.value.file.value)
  }

  lemma PairsArePlain<T>(rs: seq<T>, entry: T -> Option<Pair>)
    requires forall r :: r in rs && entry(r).Some? ==> NoComma(entry(r).value.value)
    ensures forall p :: p in FilterMap(rs, entry) ==> NoComma(p.value)
  {
    FilterMapMembers(rs, entry);
    hide NoComma, FilterMap;
    forall p | p in FilterMap(rs, entry) ensures NoComma(p.value) {
      var i :| 0 <= i < |rs| && entry(rs[i]) == Some(p);
      assert rs[i] in rs;
    }
  }

  lemma SecretsArePlain(xs: seq<Option<SecretRef>>, ys: seq<Option<SecretRef>>)
    requires PlainSecrets(xs) && PlainSecrets(ys)
    ensures OneToOne(xs, ys, SecretEntry)
    ensures forall p :: p in FilterMap(xs, SecretEntry) || p in FilterMap(ys, SecretEntry) ==> NoComma(p.value)
    ensures forall r :: IsFile(r) <==> SecretEntry(r).Some?
  {
    PairsArePlain(xs, SecretEntry);
    PairsArePlain(ys, SecretEntry);
    hide NoComma, FilterMap;
  }

  /** Secrets are silent exactly when each is mounted at the same files, as often. */
  lemma SecretsAgree(xs: seq<Option<SecretRef>>, ys: seq<Option<SecretRef>>)
    requires PlainSecrets(xs) && PlainSecrets(ys)
    ensures Joined(FilterMap(xs, SecretEntry)) == Joined(FilterMap(ys, SecretEntry)) <==> SameCounts(xs, ys, IsFile)
  {
    hide NoComma, FilterMap, Joined, OneToOne, SameCounts, PlainSecrets, SecretEntry, IsFile;
    SecretsArePlain(xs, ys);
    JoinedAgree(FilterMap(xs, SecretEntry), FilterMap(ys, SecretEntry));
    FilterMapsAgree(xs, ys, SecretEntry, IsFile);
  }

  /** A config that is mounted as a file, or is the runtime's. */
  ghost predicate IsUsed(r: Option<ConfigRef>) {
    r.Some? && (r.value.runtime || r.value.file.Some?)
  }

  /** Runtime and file exclude each other, and no file is named as a runtime target is
      rendered. */
  ghost predicate PlainConfigs(rs: seq<Option<ConfigRef>>) {
    forall r :: r in rs && r.Some? && r.value.file.Some? ==>
      !r.value.runtime && NoComma(r.value.file.value) && r.value.file.value != "(runtime)"
  }

  lemma ConfigsArePlain(xs: seq<Option<ConfigRef>>, ys: seq<Option<ConfigRef>>)
    requires PlainConfigs(xs) && PlainConfigs(ys)
    ensures OneToOne(xs, ys, ConfigEntry)
    ensures forall p :: p in FilterMap(xs, ConfigEntry) || p in FilterMap(ys, ConfigEntry) ==> NoComma(p.value)
    ensures forall r :: IsUsed(r) <==> ConfigEntry(r).Some?
  {
    assert NoComma("(runtime)");
    PairsArePlain(xs, ConfigEntry);
    PairsArePlain(ys, ConfigEntry);
    hide NoComma, FilterMap;
  }

  lemma ConfigsAgree(xs: seq<Option<ConfigRef>>, ys: seq<Option<ConfigRef>>)
    requires PlainConfigs(xs) && PlainConfigs(ys)
    ensures Joined(FilterMap(xs, ConfigEntry)) == Joined(FilterMap(ys, ConfigEntry)) <==> SameCounts(xs, ys, IsUsed)
  {
    hide NoComma, FilterMap, Joined, OneToOne, SameCounts, PlainConfigs, ConfigEntry, IsUsed;
    ConfigsArePlain(xs, ys);
    JoinedAgree(FilterMap(xs, ConfigEntry), FilterMap(ys, ConfigEntry));
    FilterMapsAgree(xs, ys, ConfigEntry, IsUsed);
  }

  ghost predicate OneUlimitEach(us: seq<Option<Ulimit>>) {
    forall i, j :: 0 <= i < j < |us| && us[i].Some? && us[j].Some? ==> us[i].value.name != us[j].value.name
  }

  ghost predicate SameUlimits(xs: seq<Option<Ulimit>>, ys: seq<Option<Ulimit>>) {
    forall u: Ulimit :: Some(u) in xs <==> Some(u) in ys
  }

  lemma UlimitsRender(u: Ulimit, w: Ulimit)
    ensures UlimitEntry(Some(u)) == UlimitEntry(Some(w)) <==> u == w
  {
    DecimalIsOneToOne(u.soft, w.soft);
    DecimalIsOneToOne(w.soft, u.soft);
    DecimalIsOneToOne(u.hard, w.hard);
    var a, b, x, y := Decimal(u.soft), Decimal(w.soft), Decimal(u.hard), Decimal(w.hard);
    assert a + ":" + x == a + [':'] + x && b + ":" + y == b + [':'] + y;
    hide Decimal;
    if a + ":" + x == b + ":" + y { FirstSplits(':', a, x, b, y); }
  }

  lemma UlimitHolds(us: seq<Option<Ulimit>>, k: string, v: string)
    ensures Holds(us, UlimitEntry, k, v) <==> exists u: Ulimit :: Some(u) in us && UlimitEntry(Some(u)) == Some(Pair(k, v))
  {
    hide Decimal;
    if i :| 0 <= i < |us| && UlimitEntry(us[i]) == Some(Pair(k, v)) {
      assert us[i] == Some(us[i].value) && us[i] in us;
    }
    if u: Ulimit :| Some(u) in us && UlimitEntry(Some(u)) == Some(Pair(k, v)) {
      var i :| 0 <= i < |us| && us[i] == Some(u);
    }
  }

  lemma UlimitsAgree(xs: seq<Option<Ulimit>>, ys: seq<Option<Ulimit>>)
    requires OneUlimitEach(xs) && OneUlimitEach(ys)
    ensures IndexOf(xs, UlimitEntry) == IndexOf(ys, UlimitEntry) <==> SameUlimits(xs, ys)
  {
    hide Decimal, IndexOf, Holds;
    IndexesAgree(xs, ys, UlimitEntry);
    forall k, v
      ensures Holds(xs, UlimitEntry, k, v) <==> exists u: Ulimit :: Some(u) in xs && UlimitEntry(Some(u)) == Some(Pair(k, v))
      ensures Holds(ys, UlimitEntry, k, v) <==> exists u: Ulimit :: Some(u) in ys && UlimitEntry(Some(u)) == Some(Pair(k, v))
    {
      UlimitHolds(xs, k, v);
      UlimitHolds(ys, k, v);
    }
    if forall k, v :: Holds(xs, UlimitEntry, k, v) <==> Holds(ys, UlimitEntry, k, v) {
      forall u: Ulimit ensures Some(u) in xs <==> Some(u) in ys {
        var p := UlimitEntry(Some(u)).value;
        assert Holds(xs, UlimitEntry, p.key, p.value) <==> Holds(ys, UlimitEntry, p.key, p.value);
        if w: Ulimit :| Some(w) in xs && UlimitEntry(Some(w)) == Some(Pair(p.key, p.value)) { UlimitsRender(u, w); }
        if w: Ulimit :| Some(w) in ys && UlimitEntry(Some(w)) == Some(Pair(p.key, p.value)) { UlimitsRender(u, w); }
      }
    }
  }

  // --- mode and resources ---

  ghost function ReplicasOf(m: Mode): nat {
    match m.replicated
    case Some(Some(n)) => n
    case _ => 1
  }

  ghost function ConcurrentOf(j: Job): nat {
    match j.maxConcurrent
    case Some(n) => n
    case None => 1
  }

  ghost function CompletionsOf(j: Job): nat {
    match j.totalCompletions
    case Some(n) => n
    case None => ConcurrentOf(j)
  }

  /** The first of the four that either sets is set on both sides, and counts the
      same there. */
  ghost predicate SameMode(w: Mode, g: Mode) {
    if w.global || g.global then w.global && g.global
    else if w.job.Some? || g.job.Some? then
      w.job.Some? && g.job.Some? && ConcurrentOf(w.job.value) == ConcurrentOf(g.job.value) &&
      CompletionsOf(w.job.value) == CompletionsOf(g.job.value)
    else if w.globalJob || g.globalJob then w.globalJob && g.globalJob
    else ReplicasOf(w) == ReplicasOf(g)
  }

  lemma ModesMean(w: Mode, g: Mode)
    ensures NormalModeOf(w) == NormalModeOf(g) <==> SameMode(w, g)
  {
  }

  ghost function LimitOf(r: Option<Resources>): Limit {
    match r
    case Some(Resources(Some(l), _)) => l
    case _ => Limit(0, 0, 0)
  }

  ghost function ReserveOf(r: Option<Resources>): Reserve {
    match r
    case Some(Resources(_, Some(l))) => l
    case _ => Reserve(0, 0, [])
  }

  ghost predicate IsGeneric(x: Generic) {
    x != Neither
  }

  /** A kind without the separator, and no named value that is written as a count is. */
  ghost predicate PlainGenerics(xs: seq<Generic>) {
    forall x :: x in xs ==>
      (x.NamedGeneric? ==> '=' !in x.kind && forall n :: x.value != Decimal(n)) && (x.Discrete? ==> '=' !in x.kind)
  }

  ghost predicate SameResources(w: Option<Resources>, g: Option<Resources>) {
    LimitOf(w) == LimitOf(g) && ReserveOf(w).nanoCPUs == ReserveOf(g).nanoCPUs && ReserveOf(w).memory == ReserveOf(g).memory &&
    SameCounts(ReserveOf(w).generic, ReserveOf(g).generic, IsGeneric)
  }

  lemma GenericsRender(x: Generic, y: Generic)
    requires PlainGenerics([x, y]) && x != Neither
    ensures GenericName(x) == GenericName(y) ==> x == y
  {
    assert x in [x, y] && y in [x, y];
    var a, b := if x.NamedGeneric? then x.value else Decimal(x.count), if y.NamedGeneric? then y.value else if y.Discrete? then Decimal(y.count) else "";
    if y != Neither {
      assert x.kind + "=" + a == x.kind + ['='] + a && y.kind + "=" + b == y.kind + ['='] + b;
      if x.Discrete? && y.Discrete? { DecimalIsOneToOne(x.count, y.count); }
      hide Decimal;
      if GenericName(x) == GenericName(y) { FirstSplits('=', x.kind, a, y.kind, b); }
    }
  }

  lemma GenericsAreOneToOne(xs: seq<Generic>, ys: seq<Generic>)
    requires PlainGenerics(xs) && PlainGenerics(ys)
    ensures OneToOne(xs, ys, GenericName)
  {
    forall x, y | (x in xs || x in ys) && (y in xs || y in ys) && GenericName(x) == GenericName(y) && GenericName(x).Some? ensures x == y {
      GenericsRender(x, y);
    }
  }

  lemma GenericsAgree(xs: seq<Generic>, ys: seq<Generic>)
    requires PlainGenerics(xs) && PlainGenerics(ys)
    ensures Sorted(GenericNames(xs)) == Sorted(GenericNames(ys)) <==> SameCounts(xs, ys, IsGeneric)
  {
    hide GenericName, FilterMap, Sorted, PlainGenerics, IsGeneric, OneToOne;
    SortedIsCanonical(GenericNames(xs), GenericNames(ys));
    GenericsAreOneToOne(xs, ys);
    forall x ensures IsGeneric(x) <==> GenericName(x).Some? { GenericIsNamed(x); }
    FilterMapsAgree(xs, ys, GenericName, IsGeneric);
  }

  lemma GenericIsNamed(x: Generic)
    ensures IsGeneric(x) <==> GenericName(x).Some?
  {
  }

  lemma ResourcesMean(w: Option<Resources>, g: Option<Resources>)
    requires PlainGenerics(ReserveOf(w).generic) && PlainGenerics(ReserveOf(g).generic)
    ensures NormalResourcesOf(w) == NormalResourcesOf(g) <==> SameResources(w, g)
  {
    hide PlainGenerics, Sorted, GenericNames, SameCounts;
    GenericsAgree(ReserveOf(w).generic, ReserveOf(g).generic);
  }

  // --- networks, placement, health, policies ---

  ghost function ConstraintsOf(p: Option<Placement>): seq<string> {
    match p case Some(placement) => placement.constraints case None => []
  }

  /** The networks cannot be compared: the swarm's were not listed, a spec uses the old
      field, or an attached one has no name. */
  ghost predicate Unsettled(want: Spec, got: Spec, nets: Option<map<string, string>>) {
    nets.None? || want.oldNetworks != [] || got.oldNetworks != [] || exists id :: id in got.networks && id !in nets.value
  }

  ghost predicate SameNetworks(want: Spec, got: Spec, nets: Option<map<string, string>>) {
    Unsettled(want, got, nets) ||
    multiset(want.networks) == multiset(Attached(nets, got.networks))
  }

  ghost function Attached(nets: Option<map<string, string>>, ids: seq<string>): seq<string> {
    seq(|ids|, i requires 0 <= i < |ids| => NameOf(nets, ids[i]))
  }

  ghost function NameOf(nets: Option<map<string, string>>, id: string): string {
    if nets.Some? && id in nets.value then nets.value[id] else ""
  }

  lemma {:induction false} ResolvedIs(ids: seq<string>, nets: map<string, string>)
    ensures Resolved(ids, nets).None? <==> exists id :: id in ids && id !in nets
    ensures Resolved(ids, nets).Some? ==> Resolved(ids, nets).value == Attached(Some(nets), ids)
    decreases |ids|
  {
    if ids != [] {
      var n := |ids| - 1;
      ResolvedIs(ids[..n], nets);
      assert ids == ids[..n] + [ids[n]];
    }
  }

  lemma NetworksMean(want: Spec, got: Spec, nets: Option<map<string, string>>)
    ensures NetworksAgree(want, got, nets) <==> SameNetworks(want, got, nets)
  {
    hide Sorted, Resolved;
    if nets.Some? && want.oldNetworks == [] && got.oldNetworks == [] {
      ResolvedIs(got.networks, nets.value);
      var live := Resolved(got.networks, nets.value);
      if live.Some? { SortedIsCanonical(want.networks, live.value); }
    }
  }

  ghost function Given(ps: seq<Option<string>>): seq<string> {
    if ps == [] then []
    else (match ps[0] case Some(p) => [p] case None => []) + Given(ps[1..])
  }

  ghost function PreferencesOf(p: Option<Placement>): seq<string> {
    match p case Some(placement) => Given(placement.preferences) case None => []
  }

  ghost function MaxReplicasOf(p: Option<Placement>): nat {
    match p case Some(placement) => placement.maxReplicas case None => 0
  }

  lemma {:induction false} SpreadsAreGiven(ps: seq<Option<string>>)
    ensures Spreads(ps) == Given(ps)
    decreases |ps|
  {
    if ps != [] {
      SpreadsAreGiven(ps[1..]);
      assert ps == [ps[0]] + ps[1..];
      FilterMapConcat([ps[0]], ps[1..], Spread);
      assert [ps[0]][..0] == [];
    }
  }

  lemma PlacementMeans(p: Option<Placement>)
    ensures Preferences(p) == PreferencesOf(p) && MaxReplicas(p) == MaxReplicasOf(p) && Constraints(p) == ConstraintsOf(p)
  {
    if p.Some? { SpreadsAreGiven(p.value.preferences); }
  }

  ghost predicate SameHealth(w: Option<Health>, g: Option<Health>) {
    match (w, g)
    case (Some(a), Some(b)) =>
      Join(a.test, " ") == Join(b.test, " ") && a.interval == b.interval && a.timeout == b.timeout &&
      a.startPeriod == b.startPeriod && a.startInterval == b.startInterval && a.retries == b.retries
    case (None, None) => true
    case _ => false
  }

  lemma HealthMeans(w: Option<Health>, g: Option<Health>)
    ensures NormalHealth(w) == NormalHealth(g) <==> SameHealth(w, g)
  {
  }

  ghost predicate SameUpdate(w: Option<Update>, g: Option<Update>) {
    match (w, g)
    case (Some(a), Some(b)) =>
      a.parallelism == b.parallelism && a.delay == b.delay && a.monitor == b.monitor && a.ratio == b.ratio &&
      UpTo("pause", a.failureAction, b.failureAction) && UpTo("stop-first", a.order, b.order)
    case (None, None) => true
    case _ => false
  }

  lemma UpdatesMean(w: Option<Update>, g: Option<Update>)
    ensures NormalUpdate(w) == NormalUpdate(g) <==> SameUpdate(w, g)
  {
    if w.Some? && g.Some? {
      NonEmptyAgrees("pause", w.value.failureAction, g.value.failureAction);
      NonEmptyAgrees("stop-first", w.value.order, g.value.order);
      hide NonEmpty, UpTo;
    }
  }

  ghost function OrZero(o: Option<int>): int {
    match o case Some(n) => n case None => 0
  }

  ghost function AttemptsOf(r: Restart): nat {
    match r.maxAttempts case Some(n) => n case None => 0
  }

  ghost predicate SameRestart(w: Option<Restart>, g: Option<Restart>) {
    match (w, g)
    case (Some(a), Some(b)) =>
      UpTo("any", a.condition, b.condition) && OrZero(a.delay) == OrZero(b.delay) && OrZero(a.window) == OrZero(b.window) &&
      AttemptsOf(a) == AttemptsOf(b)
    case (None, None) => true
    case _ => false
  }

  lemma RestartsMean(w: Option<Restart>, g: Option<Restart>)
    ensures NormalRestart(w) == NormalRestart(g) <==> SameRestart(w, g)
  {
    if w.Some? && g.Some? {
      NonEmptyAgrees("any", w.value.condition, g.value.condition);
      hide NonEmpty, UpTo;
    }
  }

  // --- the container's literal fields ---

  ghost predicate SameScalars(a: Literal, b: Literal) {
    Join(a.command, " ") == Join(b.command, " ") && Join(a.args, " ") == Join(b.args, " ") &&
    a.user == b.user && a.dir == b.dir && a.hostname == b.hostname && a.stopSignal == b.stopSignal &&
    OrZero(a.stopGrace) == OrZero(b.stopGrace) && a.readOnly == b.readOnly && a.tty == b.tty && a.init == b.init
  }

  ghost predicate SameDNS(w: Option<DNS>, g: Option<DNS>) {
    match (w, g)
    case (Some(a), Some(b)) =>
      multiset(a.nameservers) == multiset(b.nameservers) && multiset(a.search) == multiset(b.search) &&
      multiset(a.options) == multiset(b.options)
    case (None, None) => true
    case _ => false
  }

  ghost predicate SameCollections(a: Literal, b: Literal) {
    multiset(a.hosts) == multiset(b.hosts) && multiset(a.groups) == multiset(b.groups) &&
    multiset(a.capabilityAdd) == multiset(b.capabilityAdd) && multiset(a.capabilityDrop) == multiset(b.capabilityDrop) &&
    a.sysctls == b.sysctls && SameUlimits(a.ulimits, b.ulimits) && SameDNS(a.dns, b.dns)
  }

  lemma ScalarsMean(a: Literal, b: Literal)
    ensures NormalScalarsOf(a) == NormalScalarsOf(b) <==> SameScalars(a, b)
  {
    hide Join;
  }

  lemma DNSMeans(w: Option<DNS>, g: Option<DNS>)
    ensures NormalDNS(w) == NormalDNS(g) <==> SameDNS(w, g)
  {
    if w.Some? && g.Some? {
      SortedIsCanonical(w.value.nameservers, g.value.nameservers);
      SortedIsCanonical(w.value.search, g.value.search);
      SortedIsCanonical(w.value.options, g.value.options);
      hide Sorted;
    }
  }

  lemma CollectionsMean(a: Literal, b: Literal)
    requires OneUlimitEach(a.ulimits) && OneUlimitEach(b.ulimits)
    ensures NormalCollectionsOf(a) == NormalCollectionsOf(b) <==> SameCollections(a, b)
  {
    hide Sorted, IndexOf, NormalDNS, SameDNS, SameUlimits, OneUlimitEach;
    SortedIsCanonical(a.hosts, b.hosts);
    SortedIsCanonical(a.groups, b.groups);
    SortedIsCanonical(a.capabilityAdd, b.capabilityAdd);
    SortedIsCanonical(a.capabilityDrop, b.capabilityDrop);
    UlimitsAgree(a.ulimits, b.ulimits);
    DNSMeans(a.dns, b.dns);
  }

  /** Where a credential comes from: the first of its three that is set. */
  ghost function Source(c: Option<Credential>): (int, string) {
    match c
    case None => (0, "")
    case Some(Credential(config, file, registry)) =>
      if config != "" then (1, config) else if file != "" then (2, file) else if registry != "" then (3, registry) else (0, "")
  }

  lemma CredentialsMean(a: Option<Credential>, b: Option<Credential>)
    ensures CredentialOf(a) == CredentialOf(b) <==> Source(a) == Source(b)
  {
    CredentialText(a);
    CredentialText(b);
    hide CredentialOf, Source;
  }

  /** Its first letter says which, and what follows the tag is the value. */
  lemma CredentialText(c: Option<Credential>)
    ensures var (kind, v) := Source(c);
            var text := CredentialOf(c);
            (kind == 0 ==> text == "" && v == "") &&
            (kind == 1 ==> text == "config=" + v && text[0] == 'c' && text[7..] == v) &&
            (kind == 2 ==> text == "file=" + v && text[0] == 'f' && text[5..] == v) &&
            (kind == 3 ==> text == "registry=" + v && text[0] == 'r' && text[9..] == v) && 0 <= kind <= 3
  {
  }

  ghost function SeccompMode(x: Option<Seccomp>): string {
    match x case Some(c) => c.mode case None => ""
  }

  ghost predicate HasProfile(x: Option<Seccomp>) {
    x.Some? && x.value.profile != ""
  }

  lemma SeccompsMean(a: Option<Seccomp>, b: Option<Seccomp>)
    requires !EndsWith(SeccompMode(a), " (custom profile)") && !EndsWith(SeccompMode(b), " (custom profile)")
    ensures SeccompOf(a) == SeccompOf(b) <==> SeccompMode(a) == SeccompMode(b) && (HasProfile(a) <==> HasProfile(b))
  {
    SeccompText(a);
    SeccompText(b);
    SuffixTells(SeccompMode(a), SeccompMode(b), " (custom profile)", HasProfile(a), HasProfile(b));
    hide SeccompOf, SeccompMode, HasProfile;
  }

  lemma SeccompText(x: Option<Seccomp>)
    ensures SeccompOf(x) == SeccompMode(x) + if HasProfile(x) then " (custom profile)" else ""
  {
  }

  /** A suffix that neither text ends in tells whether it was added. */
  lemma SuffixTells(x: string, y: string, suffix: string, r: bool, q: bool)
    requires suffix != "" && !EndsWith(x, suffix) && !EndsWith(y, suffix)
    ensures (x + (if r then suffix else "") == y + (if q then suffix else "")) <==> x == y && r == q
  {
    assert x + "" == x && y + "" == y;
    assert EndsWith(x + suffix, suffix) && EndsWith(y + suffix, suffix);
    assert x == (x + suffix)[..|x|] && y == (y + suffix)[..|y|];
    if r && q && x + suffix == y + suffix {
      assert |x| == |y|;
    }
  }

  ghost predicate SameSelinux(w: Option<Selinux>, g: Option<Selinux>) {
    match (w, g)
    case (Some(a), Some(b)) =>
      a.disable == b.disable && (a.disable || (a.user == b.user && a.role == b.role && a.kind == b.kind && a.level == b.level))
    case (None, None) => true
    case _ => false
  }

  ghost predicate PlainSelinux(x: Option<Selinux>) {
    x.Some? ==> ':' !in x.value.user && ':' !in x.value.role && ':' !in x.value.kind
  }

  lemma SelinuxText(x: Selinux)
    ensures Join([x.user, x.role, x.kind, x.level], ":") == x.user + [':'] + (x.role + [':'] + (x.kind + [':'] + x.level))
  {
    var l := [x.user, x.role, x.kind, x.level];
    assert l[1..] == [x.role, x.kind, x.level] && l[1..][1..] == [x.kind, x.level] && l[1..][1..][1..] == [x.level];
    assert Join([x.level], ":") == x.level;
    assert Join([x.kind, x.level], ":") == x.kind + ":" + x.level;
    assert Join([x.role, x.kind, x.level], ":") == x.role + ":" + (x.kind + ":" + x.level);
  }

  lemma SelinuxMeans(w: Option<Selinux>, g: Option<Selinux>)
    requires PlainSelinux(w) && PlainSelinux(g)
    ensures SelinuxOf(w) == SelinuxOf(g) <==> SameSelinux(w, g)
  {
    if w.Some? { SelinuxText(w.value); }
    if g.Some? { SelinuxText(g.value); }
    hide Join;
    assert ':' !in "disabled" && ':' !in "";
    if w.Some? && !w.value.disable { assert ':' in SelinuxOf(w) by { assert SelinuxOf(w)[|w.value.user|] == ':'; } }
    if g.Some? && !g.value.disable { assert ':' in SelinuxOf(g) by { assert SelinuxOf(g)[|g.value.user|] == ':'; } }
    if w.Some? && g.Some? && !w.value.disable && !g.value.disable && SelinuxOf(w) == SelinuxOf(g) {
      var a, b := w.value, g.value;
      FirstSplits(':', a.user, a.role + [':'] + (a.kind + [':'] + a.level), b.user, b.role + [':'] + (b.kind + [':'] + b.level));
      FirstSplits(':', a.role, a.kind + [':'] + a.level, b.role, b.kind + [':'] + b.level);
      FirstSplits(':', a.kind, a.level, b.kind, b.level);
    }
  }

  ghost function OrEmpty(o: Option<string>): string {
    match o case Some(x) => x case None => ""
  }

  ghost predicate PlainPrivileges(p: Option<Privileges>) {
    p.Some? ==> !EndsWith(SeccompMode(p.value.seccomp), " (custom profile)") && PlainSelinux(p.value.selinux)
  }

  ghost predicate SamePrivileges(w: Option<Privileges>, g: Option<Privileges>) {
    match (w, g)
    case (Some(a), Some(b)) =>
      Source(a.credential) == Source(b.credential) && a.noNew == b.noNew &&
      SeccompMode(a.seccomp) == SeccompMode(b.seccomp) && (HasProfile(a.seccomp) <==> HasProfile(b.seccomp)) &&
      OrEmpty(a.apparmor) == OrEmpty(b.apparmor) && SameSelinux(a.selinux, b.selinux)
    case (None, None) => true
    case _ => false
  }

  lemma PrivilegesMean(w: Option<Privileges>, g: Option<Privileges>)
    requires PlainPrivileges(w) && PlainPrivileges(g)
    ensures NormalPrivilegesOf(w) == NormalPrivilegesOf(g) <==> SamePrivileges(w, g)
  {
    if w.Some? && g.Some? {
      CredentialsMean(w.value.credential, g.value.credential);
      SeccompsMean(w.value.seccomp, g.value.seccomp);
      SelinuxMeans(w.value.selinux, g.value.selinux);
      hide CredentialOf, Source, SeccompOf, SeccompMode, HasProfile, SelinuxOf, SameSelinux;
    }
  }

  ghost predicate SameRuntime(a: Literal, b: Literal) {
    a.openStdin == b.openStdin && a.oomScoreAdj == b.oomScoreAdj && UpTo("default", a.isolation, b.isolation) &&
    SameLabels(a.labels, b.labels) && SamePrivileges(a.privileges, b.privileges)
  }

  lemma RuntimesMean(a: Literal, b: Literal)
    requires PlainPrivileges(a.privileges) && PlainPrivileges(b.privileges)
    ensures NormalRuntimeOf(a) == NormalRuntimeOf(b) <==> SameRuntime(a, b)
  {
    NonEmptyAgrees("default", a.isolation, b.isolation);
    LabelsAgree(a.labels, b.labels);
    PrivilegesMean(a.privileges, b.privileges);
    hide NonEmpty, UpTo, OwnLabels, SameLabels, NormalPrivilegesOf, SamePrivileges, PlainPrivileges;
  }

  // --- the whole spec ---

  /** What a spec without a container is compared as. */
  ghost function Inside(s: Spec): Container {
    match s.container
    case Some(c) => c
    case None =>
      Container("", [], [], [], [], None,
                Literal([], [], "", "", "", "", None, false, false, None, [], [], [], [], map[], [], None, false, 0, "", map[], None))
  }

  ghost function EndpointModeOf(e: Option<Endpoint>): string {
    match e case Some(endpoint) => endpoint.mode case None => ""
  }

  /** What its renderings need to tell its values apart. */
  ghost predicate Plain(s: Spec) {
    var c := Inside(s);
    PlainGenerics(ReserveOf(s.resources).generic) && PlainPorts(PortsOf(s.endpoint)) && PlainMounts(c.mounts) &&
    PlainSecrets(c.secrets) && PlainConfigs(c.configs) && OneUlimitEach(c.literal.ulimits) && PlainPrivileges(c.literal.privileges)
  }

  ghost predicate SameImage(norm: string -> string, want: Container, got: Container) {
    want.image == "" || Services.SameImage(norm, got.image, want.image)
  }

  ghost predicate SameEnvironment(a: Container, b: Container) {
    forall k, v :: Sets(a.env, k, v) <==> Sets(b.env, k, v)
  }

  /** What the container mounts and runs as. */
  ghost predicate SameContainer(a: Container, b: Container) {
    SameEnvironment(a, b) && Matched(a.mounts, b.mounts, SameMount) && SameCounts(a.secrets, b.secrets, IsFile) &&
    SameCounts(a.configs, b.configs, IsUsed) && SameHealth(a.health, b.health) &&
    SameScalars(a.literal, b.literal) && SameCollections(a.literal, b.literal) && SameRuntime(a.literal, b.literal)
  }

  ghost predicate SamePlacement(a: Option<Placement>, b: Option<Placement>) {
    multiset(ConstraintsOf(a)) == multiset(ConstraintsOf(b)) && PreferencesOf(a) == PreferencesOf(b) &&
    MaxReplicasOf(a) == MaxReplicasOf(b)
  }

  ghost predicate SameService(want: Spec, got: Spec) {
    SameMode(want.mode, got.mode) && SameResources(want.resources, got.resources) && SamePlacement(want.placement, got.placement) &&
    SameLabels(want.labels, got.labels) && Matched(PortsOf(want.endpoint), PortsOf(got.endpoint), SamePort) &&
    UpTo("vip", EndpointModeOf(want.endpoint), EndpointModeOf(got.endpoint)) &&
    SameUpdate(want.update, got.update) && SameUpdate(want.rollback, got.rollback) && SameRestart(want.restart, got.restart) &&
    want.logDriver == got.logDriver
  }

  lemma InsideIs(s: Spec)
    ensures ContainerOf(s) == Inside(s)
  {
  }

  lemma ContainerMeans(want: Spec, got: Spec)
    requires Plain(want) && Plain(got)
    ensures var a, b := NormalOf(want), NormalOf(got);
            SameContainer(Inside(want), Inside(got)) <==>
            a.env == b.env && a.mounts == b.mounts && a.secrets == b.secrets && a.configs == b.configs && a.health == b.health &&
            a.scalars == b.scalars && a.collections == b.collections && a.runtime == b.runtime
  {
    InsideIs(want);
    InsideIs(got);
    var w, g := Inside(want), Inside(got);
    EnvironmentsAgree(w.env, g.env);
    MountsAgree(w.mounts, g.mounts);
    SecretsAgree(w.secrets, g.secrets);
    ConfigsAgree(w.configs, g.configs);
    HealthMeans(w.health, g.health);
    ScalarsMean(w.literal, g.literal);
    CollectionsMean(w.literal, g.literal);
    RuntimesMean(w.literal, g.literal);
    hide Inside, ContainerOf, IndexOf, Joined, FilterMap, Sets, Matched, SameCounts, SameHealth, SameScalars, SameCollections, SameRuntime,
      NormalHealth, NormalScalarsOf, NormalCollectionsOf, NormalRuntimeOf, PlainMounts, PlainSecrets, PlainConfigs, PlainPrivileges,
      OneUlimitEach, Sorted, Constraints, PortSet, NormalModeOf, NormalResourcesOf, OwnLabels;
  }

  lemma EndpointMeans(w: Option<Endpoint>, g: Option<Endpoint>)
    requires PlainPorts(PortsOf(w)) && PlainPorts(PortsOf(g))
    ensures PortSet(w) == PortSet(g) <==> Matched(PortsOf(w), PortsOf(g), SamePort)
    ensures ResolutionMode(w) == ResolutionMode(g) <==> UpTo("vip", EndpointModeOf(w), EndpointModeOf(g))
  {
    PortsAgree(PortsOf(w), PortsOf(g));
    NonEmptyAgrees("vip", EndpointModeOf(w), EndpointModeOf(g));
    NoPorts();
    assert PortSet(w) == IndexOf(PortsOf(w), PortEntry) && PortSet(g) == IndexOf(PortsOf(g), PortEntry);
    assert ResolutionMode(w) == NonEmpty(EndpointModeOf(w), "vip") && ResolutionMode(g) == NonEmpty(EndpointModeOf(g), "vip");
    hide IndexOf, Matched, UpTo, PortSet, ResolutionMode, NonEmpty;
  }

  lemma NoPorts()
    ensures IndexOf([], PortEntry) == map[]
  {
  }

  lemma ServiceMeans(want: Spec, got: Spec)
    requires Plain(want) && Plain(got)
    ensures var a, b := NormalOf(want), NormalOf(got);
            SameService(want, got) <==>
            a.mode == b.mode && a.resources == b.resources && a.constraints == b.constraints && a.preferences == b.preferences &&
            a.maxReplicas == b.maxReplicas && a.labels == b.labels && a.ports == b.ports && a.endpointMode == b.endpointMode &&
            a.update == b.update && a.rollback == b.rollback && a.restart == b.restart && a.logDriver == b.logDriver
  {
    ModesMean(want.mode, got.mode);
    ResourcesMean(want.resources, got.resources);
    PlacementMeans(want.placement);
    PlacementMeans(got.placement);
    SortedIsCanonical(Constraints(want.placement), Constraints(got.placement));
    LabelsAgree(want.labels, got.labels);
    EndpointMeans(want.endpoint, got.endpoint);
    UpdatesMean(want.update, got.update);
    UpdatesMean(want.rollback, got.rollback);
    RestartsMean(want.restart, got.restart);
    hide Inside, ContainerOf, IndexOf, Joined, FilterMap, Matched, SameCounts, Sorted, PortSet, NormalModeOf, NormalResourcesOf, OwnLabels,
      SameMode, SameResources, SameLabels, SameUpdate, SameRestart, NormalUpdate, NormalRestart, UpTo, ResolutionMode, PlainGenerics,
      PlainPorts, Preferences, Constraints, MaxReplicas, PreferencesOf, ConstraintsOf, MaxReplicasOf, NormalHealth, NormalScalarsOf,
      NormalCollectionsOf, NormalRuntimeOf;
  }

  /** Each thing asked of a spec is needed: without it two that differ are rendered
      alike, and nothing is reported. */
  lemma RenderingsMeet()
    ensures MountEntry(Mount("bind", "", "/d", false)) == MountEntry(Mount("bind", "(anonymous)", "/d", false))
    ensures MountEntry(Mount("bind", "/s", "/d", true)) == MountEntry(Mount("bind", "/s (read-only)", "/d", false))
    ensures MountEntry(Mount("a:b", "c", "/d", false)) == MountEntry(Mount("a", "b:c", "/d", false))
    ensures PortEntry(Port(1, 2, "tcp/x", "y")) == PortEntry(Port(1, 2, "tcp", "x/y"))
    ensures GenericName(NamedGeneric("a=b", "c")) == GenericName(NamedGeneric("a", "b=c"))
    ensures GenericName(NamedGeneric("gpu", "1")) == GenericName(Discrete("gpu", 1))
    ensures ConfigEntry(Some(ConfigRef("c", true, None))) == ConfigEntry(Some(ConfigRef("c", false, Some("(runtime)"))))
    ensures ConfigEntry(Some(ConfigRef("c", true, None))) == ConfigEntry(Some(ConfigRef("c", true, Some("/f"))))
    ensures SeccompOf(Some(Seccomp("custom", "p"))) == SeccompOf(Some(Seccomp("custom (custom profile)", "")))
  {
    assert "bind" + ":" + "/s" + " (read-only)" == "bind" + ":" + "/s (read-only)" + "";
    assert "a:b" + ":" + "c" + "" == "a" + ":" + "b:c" + "";
    var numbers := Decimal(1) + ":" + Decimal(2);
    assert numbers + "/" + "tcp/x" + "/" + "y" == numbers + "/" + "tcp" + "/" + "x/y";
    assert "a=b" + "=" + "c" == "a" + "=" + "b=c";
    assert Decimal(1) == "1";
    assert "custom" + " (custom profile)" == "custom (custom profile)" + "";
  }

  lemma FilterTwo<T, U>(x: T, y: T, f: T -> Option<U>)
    requires f(x).Some? && f(y).Some?
    ensures FilterMap([x], f) == [f(x).value] && FilterMap([x, y], f) == [f(x).value, f(y).value]
  {
    assert [x][..0] == [] && [x, y][..1] == [x];
  }

  lemma JoinedOne(key: string, x: string)
    ensures Joined([Pair(key, x)]) == map[key := x]
  {
    var pairs := [Pair(key, x)];
    FilterTwo(pairs[0], pairs[0], (p: Pair) => ValueUnder(key, p));
    assert ValuesOf(pairs, key) == [x];
    assert Join(Sorted([x]), ", ") == x;
    hide FilterMap, Join, Sorted, ValuesOf;
  }

  lemma JoinedTwo(key: string, x: string, y: string)
    requires Sorted([x, y]) == [x, y]
    ensures Joined([Pair(key, x), Pair(key, y)]) == map[key := x + ", " + y]
  {
    hide FilterMap, Join, Sorted, ValuesOf;
    ValuesOfTwo(key, x, y);
    JoinTwo(x, y);
    var pairs := [Pair(key, x), Pair(key, y)];
    assert pairs[0].key == key && pairs[1].key == key;
    assert (set i | 0 <= i < |pairs| :: pairs[i].key) == {key};
  }

  lemma JoinTwo(x: string, y: string)
    ensures Join([x, y], ", ") == x + ", " + y
  {
    assert [x, y][1..] == [y];
  }

  lemma ValuesOfTwo(key: string, x: string, y: string)
    ensures ValuesOf([Pair(key, x), Pair(key, y)], key) == [x, y]
  {
    FilterTwo(Pair(key, x), Pair(key, y), (p: Pair) => ValueUnder(key, p));
    hide FilterMap;
  }

  /** And so are a user, role and type without a colon, and files without a comma. */
  lemma JoinsMeet()
    ensures SelinuxOf(Some(Selinux(false, "a:b", "c", "d", "e"))) == SelinuxOf(Some(Selinux(false, "a", "b:c", "d", "e")))
    ensures Joined(FilterMap([Some(SecretRef("s", Some("a, b")))], SecretEntry)) ==
            Joined(FilterMap([Some(SecretRef("s", Some("a"))), Some(SecretRef("s", Some("b")))], SecretEntry))
  {
    SelinuxText(Selinux(false, "a:b", "c", "d", "e"));
    SelinuxText(Selinux(false, "a", "b:c", "d", "e"));
    assert "a:b" + [':'] + ("c" + [':'] + ("d" + [':'] + "e")) == "a" + [':'] + ("b:c" + [':'] + ("d" + [':'] + "e"));
    var whole, first, second := Some(SecretRef("s", Some("a, b"))), Some(SecretRef("s", Some("a"))), Some(SecretRef("s", Some("b")));
    FilterTwo(whole, whole, SecretEntry);
    FilterTwo(first, second, SecretEntry);
    assert AtMost("a", "b");
    assert Sorted(["b"]) == ["b"];
    assert ["a", "b"][1..] == ["b"];
    assert Sorted(["a", "b"]) == ["a", "b"];
    hide FilterMap, Sorted, Joined, Join;
    JoinedTwo("s", "a", "b");
    JoinedOne("s", "a, b");
    assert "a" + ", " + "b" == "a, b";
  }

  /** A live comparison is silent exactly when the service runs what the manifest
      says: the same image, the same networks as far as they can be named, and the
      same in every field compared, unset ones standing for their defaults. */
  lemma SilentMeans(norm: string -> string, want: Spec, got: Spec, nets: Option<map<string, string>>)
    requires Plain(want) && Plain(got)
    ensures Fields(norm, want, got, nets) == [] <==>
            SameService(want, got) && SameContainer(Inside(want), Inside(got)) && SameImage(norm, Inside(want), Inside(got)) &&
            SameNetworks(want, got, nets)
  {
    hide Fields, Plain, NormalOf, SameService, SameContainer, SameNetworks, NetworksAgree;
    SilentExactly(norm, want, got, nets);
    NormalFormsEqual(NormalOf(want), NormalOf(got));
    ServiceMeans(want, got);
    ContainerMeans(want, got);
    NetworksMean(want, got, nets);
    InsideIs(want);
    InsideIs(got);
  }
}
