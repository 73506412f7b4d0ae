/** Which releases may be installed together (backend/backend.go,
    rejectRecordedCollision).

    Every install leaves a config, its record, named after the release. Before a
    deploy the controller asks the daemon for the records whose names could matter
    and refuses a release whose name collides with one already recorded. */
module Installs {
  import opened Text
  import opened Names

  const RECORD_PREFIX := "swarmcli.release."
  const LABEL_TYPE := "com.swarmcli.type"
  const TYPE_RELEASE := "release"
  const LABEL_RELEASE := "com.swarmcli.release"
  const LABEL_NAMESPACE := "com.docker.stack.namespace"

  datatype Config = Config(name: string, labels: map<string, string>)

  /** Reading a Go map: the empty string for a missing key. */
  function Label(labels: map<string, string>, key: string): string {
    if key in labels then labels[key] else ""
  }

  predicate IsReleaseRecord(labels: map<string, string>) {
    Label(labels, LABEL_TYPE) == TYPE_RELEASE && LABEL_NAMESPACE !in labels
  }

  function ReleaseOf(c: Config): string {
    Label(c.labels, LABEL_RELEASE)
  }

  /** How the chart engine names a record: after the release its label names. */
  ghost predicate WellNamed(c: Config) {
    IsReleaseRecord(c.labels) ==>
      ReleaseOf(c) != "" && RECORD_PREFIX + ReleaseOf(c) + ".v" <= c.name
  }

  /** The daemon's name filter: any of the prefixes, without regard to case. */
  predicate Matches(filters: seq<string>, name: string) {
    exists i :: 0 <= i < |filters| && Fold(filters[i]) <= Fold(name)
  }

  /** ConfigList with a name filter. */
  function ListByName(store: seq<Config>, filters: seq<string>): (r: seq<Config>)
    ensures forall c :: c in r <==> c in store && Matches(filters, c.name)
  {
    if store == [] then []
    else
      var rest := ListByName(store[1..], filters);
      if Matches(filters, store[0].name) then [store[0]] + rest else rest
  }

  /** Every release with a record, by a scan of the whole store. */
  ghost function Recorded(store: seq<Config>): set<string> {
    set c | c in store && IsReleaseRecord(c.labels) :: ReleaseOf(c)
  }

  predicate CaseVariant(other: string, release: string) {
    other != release && Fold(other) == Fold(release)
  }

  /** Names that match as written, which only volumes can share. */
  predicate SharesVolumes(other: string, release: string) {
    ReleasesCollide(other, release) && (release + "_" <= other || other + "_" <= release)
  }

  /** A record is typed as one and belongs to no stack. */
  lemma RecordsAre(labels: map<string, string>)
    ensures IsReleaseRecord(labels) <==>
            "com.swarmcli.type" in labels && labels["com.swarmcli.type"] == "release" &&
            "com.docker.stack.namespace" !in labels
  {
  }

  lemma ExtendsCollide(name: string, rest: string)
    ensures ReleasesCollide(name + "_" + rest, name) && ReleasesCollide(name, name + "_" + rest)
    ensures name + "_" <= name + "_" + rest
  {
    FoldConcat(name + "_", rest);
    FoldConcat(name, "_");
  }

  /** Names vary in case alone, and names of which one, as written, is the other
      followed by "_" and more. */
  lemma VariantsAre(other: string, release: string)
    ensures CaseVariant(other, release) <==>
            other != release && |other| == |release| && forall i :: 0 <= i < |other| ==>
              other[i] == release[i] || (65 <= other[i] as int <= 90 && other[i] as int + 32 == release[i] as int) ||
              (65 <= release[i] as int <= 90 && release[i] as int + 32 == other[i] as int)
    ensures SharesVolumes(other, release) <==>
            exists rest :: other == release + "_" + rest || release == other + "_" + rest
  {
    FoldsAlike(other, release);
    if release + "_" <= other {
      assert other == release + "_" + other[|release| + 1..];
    }
    if other + "_" <= release {
      assert release == other + "_" + release[|other| + 1..];
    }
    if rest :| other == release + "_" + rest || release == other + "_" + rest {
      ExtendsCollide(release, rest);
      ExtendsCollide(other, rest);
    }
  }

  ghost predicate IsLeast(x: string, s: iset<string>) {
    x in s && forall y :: y in s ==> AtMost(x, y)
  }

  datatype Verdict = Allowed(warnShares: string) | RefusedVariant(other: string) | RefusedExtends(other: string)

  /** Whether a deploy of release may go ahead, over a set of recorded releases. */
  ghost predicate Accepts(recorded: set<string>, release: string, self: bool) {
    && (forall o :: o in recorded ==> !CaseVariant(o, release))
    && (release in recorded || self || forall o :: o in recorded ==> !ReleasesCollide(o, release))
  }

  // --- the filtered listing holds every record that matters ---

  lemma SamePrefixMatches(other: string, release: string, name: string)
    requires Fold(other) == Fold(release)
    requires RECORD_PREFIX + other + ".v" <= name
    ensures Fold(RECORD_PREFIX + release + ".") <= Fold(name)
  {
  }

  lemma LongerRecordMatches(other: string, release: string, name: string)
    requires Fold(release) + "_" <= Fold(other)
    requires RECORD_PREFIX + other + ".v" <= name
    ensures Fold(RECORD_PREFIX + release + "_") <= Fold(name)
  {
  }

  lemma ExtendedRecordMatches(other: string, release: string, name: string)
    requires Fold(other) + "_" <= Fold(release)
    requires RECORD_PREFIX + other + ".v" <= name
    ensures release[|other|] == '_'
    ensures Fold(RECORD_PREFIX + release[..|other|] + ".") <= Fold(name)
  {
  }

  /** The prefixes asked for: the release's own records and its case variants',
      those of every release extending it, and those of each release it extends. */
  method RecordFilters(release: string) returns (filters: seq<string>)
    ensures RECORD_PREFIX + release + "." in filters
    ensures RECORD_PREFIX + release + "_" in filters
    ensures forall i :: 0 <= i < |release| && release[i] == '_' ==> RECORD_PREFIX + release[..i] + "." in filters
    ensures forall f :: f in filters ==>
              (f == RECORD_PREFIX + release + "_" ||
               exists i :: 0 <= i <= |release| && (i < |release| ==> release[i] == '_') && f == RECORD_PREFIX + release[..i] + ".")
  {
    assert release[..|release|] == release;
    filters := [RECORD_PREFIX + release + ".", RECORD_PREFIX + release + "_"];
    for i := 0 to |release|
      invariant RECORD_PREFIX + release + "." in filters
      invariant RECORD_PREFIX + release + "_" in filters
      invariant forall k :: 0 <= k < i && release[k] == '_' ==> RECORD_PREFIX + release[..k] + "." in filters
      invariant forall f :: f in filters ==>
                  (f == RECORD_PREFIX + release + "_" ||
                   exists k :: 0 <= k <= |release| && (k < |release| ==> release[k] == '_') && f == RECORD_PREFIX + release[..k] + ".")
    {
      if release[i] == '_' {
        filters := filters + [RECORD_PREFIX + release[..i] + "."];
      }
    }
  }

  /** A record of the release, of a case variant, or of a release colliding with
      it is never filtered away. */
  lemma FiltersKeepWhatMatters(c: Config, release: string, filters: seq<string>)
    requires WellNamed(c) && IsReleaseRecord(c.labels)
    requires RECORD_PREFIX + release + "." in filters
    requires RECORD_PREFIX + release + "_" in filters
    requires forall i :: 0 <= i < |release| && release[i] == '_' ==> RECORD_PREFIX + release[..i] + "." in filters
    requires ReleaseOf(c) == release || CaseVariant(ReleaseOf(c), release) || ReleasesCollide(ReleaseOf(c), release)
    ensures Matches(filters, c.name)
  {
    var other := ReleaseOf(c);
    if Fold(other) == Fold(release) {
      SamePrefixMatches(other, release, c.name);
    } else if Fold(release) + "_" <= Fold(other) {
      LongerRecordMatches(other, release, c.name);
    } else {
      ExtendedRecordMatches(other, release, c.name);
    }
  }

  ghost function Colliding(names: iset<string>, release: string): iset<string> {
    iset o | o in names && !CaseVariant(o, release) && ReleasesCollide(o, release)
  }

  ghost function Sharing(names: iset<string>, release: string): iset<string> {
    iset o | o in names && !CaseVariant(o, release) && SharesVolumes(o, release)
  }

  ghost function NamesIn(list: seq<Config>): iset<string> {
    iset c | c in list && IsReleaseRecord(c.labels) :: ReleaseOf(c)
  }

  ghost predicate Tracks(x: string, s: iset<string>) {
    (x == "" ==> s == iset{}) && (x != "" ==> IsLeast(x, s))
  }

  /** Keeping the lesser of two names, the empty one meaning none yet. */
  function Lesser(best: string, y: string): string {
    if best == "" || (AtMost(y, best) && y != best) then y else best
  }

  lemma TrackNext(x: string, s: iset<string>, y: string, t: iset<string>)
    requires Tracks(x, s) && y != "" && t == s + iset{y}
    ensures Tracks(Lesser(x, y), t)
  {
    AtMostTotal(x, y);
    AtMostTotal(y, y);
    if x != "" && AtMost(y, x) && y != x {
      forall z | z in t ensures AtMost(y, z) {
        if z in s { AtMostTransitive(y, x, z); }
      }
    }
  }

  /** What the scan knows after reading list. */
  ghost predicate Scanned(list: seq<Config>, release: string, own: bool, collides: string, shares: string) {
    && (own <==> release in NamesIn(list))
    && (forall o :: o in NamesIn(list) ==> !CaseVariant(o, release))
    && Tracks(collides, Colliding(NamesIn(list), release))
    && Tracks(shares, Sharing(NamesIn(list), release))
  }

  lemma NamesInNext(list: seq<Config>, c: Config)
    ensures NamesIn(list + [c]) == if IsReleaseRecord(c.labels) then NamesIn(list) + iset{ReleaseOf(c)} else NamesIn(list)
  {
  }

  lemma ScanNext(list: seq<Config>, c: Config, release: string, own: bool, collides: string, shares: string)
    requires Scanned(list, release, own, collides, shares)
    requires IsReleaseRecord(c.labels) && ReleaseOf(c) != "" && !CaseVariant(ReleaseOf(c), release)
    ensures var other := ReleaseOf(c);
            Scanned(list + [c], release, own || other == release,
                    if ReleasesCollide(other, release) then Lesser(collides, other) else collides,
                    if SharesVolumes(other, release) then Lesser(shares, other) else shares)
  {
    var other := ReleaseOf(c);
    NamesInNext(list, c);
    var names, next := NamesIn(list), NamesIn(list + [c]);
    if ReleasesCollide(other, release) {
      assert Colliding(next, release) == Colliding(names, release) + iset{other};
      TrackNext(collides, Colliding(names, release), other, Colliding(next, release));
    } else {
      assert Colliding(next, release) == Colliding(names, release);
    }
    if SharesVolumes(other, release) {
      assert Sharing(next, release) == Sharing(names, release) + iset{other};
      TrackNext(shares, Sharing(names, release), other, Sharing(next, release));
    } else {
      assert Sharing(next, release) == Sharing(names, release);
    }
  }

  /** The lookup by name prefix decides as a scan of every record would: the
      release is refused for a case variant, or for a name its own extends or is
      extended by, exactly when such a release is recorded anywhere in the store,
      and the name blamed is the least of them. */
  method RejectRecordedCollision(store: seq<Config>, release: string, self: bool) returns (v: Verdict)
    requires forall c :: c in store ==> WellNamed(c)
    ensures v.Allowed? <==> Accepts(Recorded(store), release, self)
    ensures v.RefusedVariant? ==> v.other in Recorded(store) && CaseVariant(v.other, release)
    ensures v.RefusedVariant? <==> exists o :: o in Recorded(store) && CaseVariant(o, release)
    ensures v.RefusedExtends? ==> IsLeast(v.other, Colliding(NamesIn(store), release))
    ensures v.Allowed? && v.warnShares != "" ==>
              release in Recorded(store) && IsLeast(v.warnShares, Sharing(NamesIn(store), release))
    ensures v.Allowed? && v.warnShares == "" ==>
              release !in Recorded(store) || Sharing(NamesIn(store), release) == iset{}
  {
    var filters := RecordFilters(release);
    var list := ListByName(store, filters);
    forall c | c in store && IsReleaseRecord(c.labels) &&
               (ReleaseOf(c) == release || CaseVariant(ReleaseOf(c), release) || ReleasesCollide(ReleaseOf(c), release))
      ensures c in list
    {
      FiltersKeepWhatMatters(c, release, filters);
    }
    var own, collides, shares := false, "", "";
    assert Scanned(list[..0], release, own, collides, shares);
    for i := 0 to |list|
      invariant Scanned(list[..i], release, own, collides, shares)
    {
      assert list[..i + 1] == list[..i] + [list[i]];
      NamesInNext(list[..i], list[i]);
      if IsReleaseRecord(list[i].labels) {
        var other := ReleaseOf(list[i]);
        if CaseVariant(other, release) {
          assert other in Recorded(store);
          return RefusedVariant(other);
        }
        ScanNext(list[..i], list[i], release, own, collides, shares);
        own := own || other == release;
        if ReleasesCollide(other, release) {
          collides := Lesser(collides, other);
          if SharesVolumes(other, release) {
            shares := Lesser(shares, other);
          }
        }
      }
    }
    assert list[..|list|] == list;
    FilteredScanAgrees(store, list, release);
    assert forall o :: o in Recorded(store) ==> !CaseVariant(o, release);
    assert forall o :: o in Recorded(store) && ReleasesCollide(o, release) ==> o in Colliding(NamesIn(store), release);
    if collides != "" && !own && !self {
      return RefusedExtends(collides);
    }
    return Allowed(if own then shares else "");
  }

  lemma FilteredScanAgrees(store: seq<Config>, list: seq<Config>, release: string)
    requires forall c :: c in list ==> c in store
    requires forall c :: c in store && IsReleaseRecord(c.labels) &&
                         (ReleaseOf(c) == release || CaseVariant(ReleaseOf(c), release) || ReleasesCollide(ReleaseOf(c), release))
                         ==> c in list
    ensures release in NamesIn(list) <==> release in Recorded(store)
    ensures Colliding(NamesIn(list), release) == Colliding(NamesIn(store), release)
    ensures Sharing(NamesIn(list), release) == Sharing(NamesIn(store), release)
    ensures forall o :: CaseVariant(o, release) ==> (o in NamesIn(list) <==> o in Recorded(store))
    ensures forall o :: o in Recorded(store) <==> o in NamesIn(store)
  {
  }

  // --- over every run of installs ---

  /** Deploys and uninstalls as the store sees them, one at a time. */
  datatype Event = Deploy(release: string, self: bool) | Uninstall(release: string)

  ghost function Step(recorded: set<string>, e: Event): set<string> {
    match e
    case Deploy(r, self) => if Accepts(recorded, r, self) then recorded + {r} else recorded
    case Uninstall(r) => recorded - {r}
  }

  ghost function Run(recorded: set<string>, events: seq<Event>): set<string>
    decreases |events|
  {
    if events == [] then recorded else Run(Step(recorded, events[0]), events[1..])
  }

  ghost predicate NonColliding(recorded: set<string>) {
    forall a, b :: a in recorded && b in recorded ==> !ReleasesCollide(a, b)
  }

  /** A deploy that is accepted leaves no two releases colliding unless it was
      accepted only because it is the controller's own. */
  lemma DeployKeepsApart(recorded: set<string>, release: string, self: bool)
    requires NonColliding(recorded) && Accepts(recorded, release, self)
    ensures NonColliding(Step(recorded, Deploy(release, self))) <==>
            (release in recorded || forall o :: o in recorded ==> !ReleasesCollide(o, release))
  {
  }

  /** The one exemption: adopting the controller's own stack is not refused for
      a name that extends another's. */
  lemma SelfDeployMayCollide()
    ensures NonColliding({"a"}) && Accepts({"a"}, "a_b", true) && !NonColliding(Step({"a"}, Deploy("a_b", true)))
    ensures !Accepts({"a"}, "a_b", false)
  {
  }

  /** From a store without collisions, no sequence of ordinary deploys and
      uninstalls installs two releases that scope to one name. */
  lemma {:induction false} InstalledReleasesStayApart(recorded: set<string>, events: seq<Event>)
    requires NonColliding(recorded)
    requires forall e :: e in events && e.Deploy? ==> !e.self
    ensures NonColliding(Run(recorded, events))
    ensures forall a, b :: a in Run(recorded, events) && b in Run(recorded, events) && a != b ==> !ScopesMeet(a, b)
    decreases |events|
  {
    if events == [] {
      forall a, b | a in recorded && b in recorded && a != b ensures !ScopesMeet(a, b) {
        CollideIsExact(a, b);
      }
    } else {
      if events[0].Deploy? && Accepts(recorded, events[0].release, events[0].self) {
        DeployKeepsApart(recorded, events[0].release, events[0].self);
      }
      InstalledReleasesStayApart(Step(recorded, events[0]), events[1..]);
    }
  }

  /** Whose a scoped name is can be read off the name while no two installed
      releases collide. */
  lemma ScopedNamesHaveOneOwner(recorded: set<string>, events: seq<Event>, a: string, b: string, name: string)
    requires NonColliding(recorded)
    requires forall e :: e in events && e.Deploy? ==> !e.self
    requires a in Run(recorded, events) && b in Run(recorded, events)
    requires ScopedUnder(a, name) && ScopedUnder(b, name)
    ensures a == b
  {
    InstalledReleasesStayApart(recorded, events);
    ScopeDecidesOwner(a, b, name);
  }
}
