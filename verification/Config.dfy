/** The applications file (config/config.go): defaults, and the checks that make
    a set one the rest of the controller can act on.

    The deletion rules rest on two facts settled here: application names are
    unique, and a set that declares no applications was written that way. */
module Config {
  import opened Text

  const DRIFT_MANIFEST := "manifest"
  const DRIFT_LIVE := "live"

  /** An application as the file declares it. `release` is the release a chart
      source names, None for a releaseFile source; `rest` stands for the fields
      whose checks concern one entry alone. */
  datatype Spec = Spec(name: string, isSelf: bool, drift: string, release: Option<string>, rest: string)

  /** A list entry of the document; the decoder drops blank ones. */
  datatype Entry = Blank | Item(spec: Spec)

  /** A decoded document: its apiVersion, its list of applications if it has one,
      and whether further documents follow it. */
  datatype Document = Document(version: string, entries: Option<seq<Entry>>, more: bool)

  datatype Fault =
    | Undecodable
    | BadVersion
    | NoApplications
    | BadApplication(at: nat)
    | DuplicateName(at: nat)
    | TwoSelves(at: nat)
    | SharedRelease(at: nat)

  predicate IsAlphanumeric(c: char) {
    'a' <= c <= 'z' || '0' <= c <= '9'
  }

  /** nameRE: ^[a-z0-9][a-z0-9._-]*$ */
  predicate IsName(s: string) {
    s != "" && IsAlphanumeric(s[0]) &&
    forall c :: c in s ==> IsAlphanumeric(c) || c == '.' || c == '_' || c == '-'
  }

  function Defaulted(spec: Spec): Spec {
    spec.(
      drift := if spec.drift != "" then spec.drift else if spec.isSelf then DRIFT_LIVE else DRIFT_MANIFEST,
      release := if spec.release == Some("") then Some(spec.name) else spec.release)
  }

  function DefaultedAll(apps: seq<Spec>): seq<Spec> {
    seq(|apps|, i requires 0 <= i < |apps| => Defaulted(apps[i]))
  }

  /** validateApplication and validateSelf, with the checks of the other fields
      passed in. */
  predicate Sound(spec: Spec, rest: string -> bool) {
    IsName(spec.name) && (spec.drift == DRIFT_MANIFEST || spec.drift == DRIFT_LIVE) && rest(spec.rest) &&
    (spec.isSelf ==> spec.release.Some? && spec.drift == DRIFT_LIVE)
  }

  predicate SameName(a: Spec, b: Spec) {
    a.name == b.name
  }

  predicate BothSelf(a: Spec, b: Spec) {
    a.isSelf && b.isSelf
  }

  /** Two chart sources claim one stack: Swarm compares names without case. */
  predicate SameStack(a: Spec, b: Spec) {
    a.release.Some? && b.release.Some? && Fold(a.release.value) == Fold(b.release.value)
  }

  predicate Clash(a: Spec, b: Spec) {
    SameName(a, b) || BothSelf(a, b) || SameStack(a, b)
  }

  /** What a set must satisfy: every entry is sound and no two of them clash. */
  predicate Admissible(apps: seq<Spec>, rest: string -> bool) {
    (forall i :: 0 <= i < |apps| ==> Sound(apps[i], rest)) &&
    (forall i, j :: 0 <= i < j < |apps| ==> !Clash(apps[i], apps[j]))
  }

  /** What is wrong with the entry at `at`, given a consistent list before it, in
      the order the checks are made. */
  ghost predicate Explains(fault: Fault, apps: seq<Spec>, rest: string -> bool) {
    match fault
    case BadApplication(at) => at < |apps| && !Sound(apps[at], rest)
    case DuplicateName(at) =>
      at < |apps| && Sound(apps[at], rest) && exists i :: 0 <= i < at && SameName(apps[i], apps[at])
    case TwoSelves(at) =>
      at < |apps| && (forall i :: 0 <= i < at ==> !SameName(apps[i], apps[at])) &&
      exists i :: 0 <= i < at && BothSelf(apps[i], apps[at])
    case SharedRelease(at) =>
      at < |apps| && (forall i :: 0 <= i < at ==> !SameName(apps[i], apps[at]) && !BothSelf(apps[i], apps[at])) &&
      exists i :: 0 <= i < at && SameStack(apps[i], apps[at])
    case _ => false
  }

  class File {
    var version: string
    var applications: Option<seq<Spec>>

    constructor (version: string, applications: Option<seq<Spec>>)
      ensures this.version == version && this.applications == applications
    {
      this.version, this.applications := version, applications;
    }

    method ApplyDefaults()
      modifies this`applications
      ensures applications ==
              if old(applications).None? then None else Some(DefaultedAll(old(applications).value))
    {
      if applications.None? { return; }
      var n := |applications.value|;
      for i := 0 to n
        invariant applications.Some? && |applications.value| == n
        invariant forall k :: 0 <= k < i ==> applications.value[k] == Defaulted(old(applications).value[k])
        invariant forall k :: i <= k < n ==> applications.value[k] == old(applications).value[k]
      {
        var app := applications.value[i];
        if app.drift == "" {
          app := app.(drift := DRIFT_MANIFEST);
          if app.isSelf { app := app.(drift := DRIFT_LIVE); }
        }
        if app.release == Some("") { app := app.(release := Some(app.name)); }
        applications := Some(applications.value[i := app]);
      }
      assert applications.value == DefaultedAll(old(applications).value);
    }

    /** Accepts exactly the consistent sets, and otherwise reports the first entry
        at which the list stops being one, with the first check it fails. */
    method Validate(rest: string -> bool) returns (fault: Option<Fault>)
      ensures fault.None? <==> (version == "" || version == "v1") && applications.Some? && Admissible(applications.value, rest)
      ensures fault == Some(BadVersion) <==> version != "" && version != "v1"
      ensures fault == Some(NoApplications) <==> (version == "" || version == "v1") && applications.None?
      ensures fault.Some? && !fault.value.BadVersion? && !fault.value.NoApplications? ==>
                applications.Some? && Explains(fault.value, applications.value, rest) &&
                Admissible(applications.value[..fault.value.at], rest)
    {
      hide Sound, Clash, Explains, Admissible, Fold;
      if version != "" && version != "v1" { return Some(BadVersion); }
      if applications.None? { return Some(NoApplications); }
      var apps := applications.value;
      var seen: set<string>, claimed: set<string>, selfApp := {}, {}, "";
      NothingClashes(rest);
      assert apps[..0] == [];
      for i := 0 to |apps|
        invariant Admissible(apps[..i], rest)
        invariant forall n :: n in seen <==> exists k :: 0 <= k < i && apps[k].name == n
        invariant selfApp != "" <==> exists k :: 0 <= k < i && apps[k].isSelf
        invariant forall r :: r in claimed <==>
                    exists k :: 0 <= k < i && apps[k].release.Some? && Fold(apps[k].release.value) == r
      {
        var app := apps[i];
        var bad := Check(apps[..i], app, rest, seen, selfApp != "", claimed);
        if bad.Some? {
          ReportExplains(apps, i, bad.value, rest);
          return bad;
        }
        AdmissibleNext(apps[..i], app, rest);
        assert apps[..i + 1] == apps[..i] + [app];
        seen := seen + {app.name};
        if app.isSelf { selfApp := app.name; }
        if app.release.Some? { claimed := claimed + {Fold(app.release.value)}; }
        assert forall k :: 0 <= k < i + 1 ==> k < i || apps[k] == app;
      }
      assert apps[..|apps|] == apps;
      return None;
    }
  }

  lemma NothingClashes(rest: string -> bool)
    ensures Admissible([], rest)
  {
  }

  /** The checks of one entry against what the entries before it recorded. */
  method Check(before: seq<Spec>, app: Spec, rest: string -> bool,
               seen: set<string>, hasSelf: bool, claimed: set<string>) returns (fault: Option<Fault>)
    requires forall n :: n in seen <==> exists k :: 0 <= k < |before| && before[k].name == n
    requires hasSelf <==> exists k :: 0 <= k < |before| && before[k].isSelf
    requires forall r :: r in claimed <==>
               exists k :: 0 <= k < |before| && before[k].release.Some? && Fold(before[k].release.value) == r
    ensures fault.None? <==> Sound(app, rest) && forall k :: 0 <= k < |before| ==> !Clash(before[k], app)
    ensures fault.None? ==> app.name != ""
    ensures fault.Some? ==> !fault.value.BadVersion? && !fault.value.NoApplications? && !fault.value.Undecodable?
    ensures fault.Some? ==> fault.value.at == |before| && Explains(fault.value, before + [app], rest)
  {
    hide Fold;
    var n := |before|;
    if !Sound(app, rest) { return Some(BadApplication(n)); }
    ghost var all := before + [app];
    if app.name in seen {
      var k :| 0 <= k < n && before[k].name == app.name;
      assert SameName(all[k], all[n]) && Clash(before[k], app);
      return Some(DuplicateName(n));
    }
    assert forall k :: 0 <= k < n ==> !SameName(before[k], app);
    if app.isSelf && hasSelf {
      var k :| 0 <= k < n && before[k].isSelf;
      assert BothSelf(all[k], all[n]) && Clash(before[k], app);
      return Some(TwoSelves(n));
    }
    assert forall k :: 0 <= k < n ==> !BothSelf(before[k], app);
    if app.release.Some? && Fold(app.release.value) in claimed {
      var k :| 0 <= k < n && before[k].release.Some? && Fold(before[k].release.value) == Fold(app.release.value);
      assert SameStack(all[k], all[n]) && Clash(before[k], app);
      return Some(SharedRelease(n));
    }
    assert forall k :: 0 <= k < n ==> !SameStack(before[k], app);
    return None;
  }

  lemma AdmissibleNext(before: seq<Spec>, app: Spec, rest: string -> bool)
    requires Admissible(before, rest)
    requires Sound(app, rest) && forall k :: 0 <= k < |before| ==> !Clash(before[k], app)
    ensures Admissible(before + [app], rest)
  {
  }

  /** A fault found after a prefix condemns the whole list. */
  lemma ReportExplains(apps: seq<Spec>, i: nat, fault: Fault, rest: string -> bool)
    requires i < |apps| && Explains(fault, apps[..i] + [apps[i]], rest) && fault.at == i
    ensures Explains(fault, apps, rest) && !Admissible(apps, rest)
  {
    hide Sound;
    var all := apps[..i] + [apps[i]];
    assert forall k :: 0 <= k <= i ==> all[k] == apps[k];
    if !fault.BadApplication? {
      var k :| 0 <= k < i && Clash(all[k], all[i]);
      assert Clash(apps[k], apps[i]);
    }
  }

  /** The specs of a list with the blank entries dropped. */
  function Kept(entries: seq<Entry>): (r: seq<Spec>) {
    if entries == [] then []
    else (if entries[0].Blank? then [] else [entries[0].spec]) + Kept(entries[1..])
  }

  /** A single document whose list has no entries at all. */
  predicate DeclaresNone(doc: Document) {
    doc.entries == Some([]) && !doc.more
  }

  datatype Parsed = Loaded(apps: seq<Spec>) | Refused(fault: Fault)

  function Decoded(doc: Document): Option<seq<Spec>> {
    if doc.entries.None? then None
    else if Kept(doc.entries.value) == [] && !DeclaresNone(doc) then None
    else Some(Kept(doc.entries.value))
  }

  /** The set a document declares, None when it is refused or does not decode. */
  function Accepted(doc: Option<Document>, rest: string -> bool): Option<seq<Spec>> {
    if doc.None? || (doc.value.version != "" && doc.value.version != "v1") || Decoded(doc.value).None? then None
    else if Admissible(DefaultedAll(Decoded(doc.value).value), rest) then Some(DefaultedAll(Decoded(doc.value).value))
    else None
  }

  method Parse(doc: Option<Document>, rest: string -> bool) returns (r: Parsed)
    ensures (if r.Loaded? then Some(r.apps) else None) == Accepted(doc, rest)
  {
    if doc.None? { return Refused(Undecodable); }
    var file := new File(doc.value.version, Decoded(doc.value));
    file.ApplyDefaults();
    var fault := file.Validate(rest);
    if fault.Some? { return Refused(fault.value); }
    return Loaded(file.applications.value);
  }

  /** An empty set is loaded exactly from a single document that writes an empty
      list: not from a missing key, a list of blanks, or a file cut off after
      its first entry. */
  lemma EmptyOnlyWhenDeclared(doc: Document)
    ensures Decoded(doc).Some? && DefaultedAll(Decoded(doc).value) == [] <==> DeclaresNone(doc)
  {
  }

  /** Where the entries that are kept stand in the list. */
  ghost function KeptAt(entries: seq<Entry>): seq<nat> {
    if entries == [] then []
    else KeptAt(entries[..|entries| - 1]) + if entries[|entries| - 1].Item? then [|entries| - 1] else []
  }

  /** One list holds the entries of another that are not blank, in their order: at[k]
      is where the k-th of them stands, and every one of them stands somewhere. */
  ghost predicate HoldsItems(specs: seq<Spec>, entries: seq<Entry>, at: seq<nat>) {
    |at| == |specs| &&
    (forall k :: 0 <= k < |at| ==> at[k] < |entries| && entries[at[k]] == Item(specs[k])) &&
    (forall j, k :: 0 <= j < k < |at| ==> at[j] < at[k]) &&
    forall i :: 0 <= i < |entries| && entries[i].Item? ==> i in at
  }

  lemma {:induction false} KeptConcat(a: seq<Entry>, b: seq<Entry>)
    ensures Kept(a + b) == Kept(a) + Kept(b)
    decreases |a|
  {
    if a == [] {
      assert a + b == b;
    } else {
      assert (a + b)[1..] == a[1..] + b;
      KeptConcat(a[1..], b);
    }
  }

  lemma HoldsOneMore(specs: seq<Spec>, entries: seq<Entry>, at: seq<nat>, last: Entry)
    requires HoldsItems(specs, entries, at)
    ensures last.Item? ==> HoldsItems(specs + [last.spec], entries + [last], at + [|entries|])
    ensures last.Blank? ==> HoldsItems(specs, entries + [last], at)
  {
    if last.Item? {
      var more := at + [|entries|];
      assert more[|at|] == |entries|;
      assert forall i :: i in at ==> i in more;
    }
  }

  lemma {:induction false} KeptHoldsItems(entries: seq<Entry>)
    ensures HoldsItems(Kept(entries), entries, KeptAt(entries))
    decreases |entries|
  {
    if entries != [] {
      var before, last := entries[..|entries| - 1], entries[|entries| - 1];
      assert entries == before + [last];
      assert Kept([last]) == if last.Item? then [last.spec] else [] by { assert [last][1..] == []; }
      KeptHoldsItems(before);
      KeptConcat(before, [last]);
      HoldsOneMore(Kept(before), before, KeptAt(before), last);
      hide Kept, HoldsItems;
    }
  }

  /** What loads is every application that the document lists and nothing else, in
      its order, one for one, each as written but for an unset drift detection and
      an unset release name. */
  lemma LoadsWhatIsListed(doc: Document, rest: string -> bool) returns (at: seq<nat>)
    requires Accepted(Some(doc), rest).Some?
    ensures doc.entries.Some? && |at| == |Accepted(Some(doc), rest).value|
    ensures forall j, k :: 0 <= j < k < |at| ==> at[j] < at[k]
    ensures forall k :: 0 <= k < |at| ==> at[k] < |doc.entries.value| && doc.entries.value[at[k]].Item?
    ensures forall i :: 0 <= i < |doc.entries.value| && doc.entries.value[i].Item? ==> i in at
    ensures forall k :: 0 <= k < |at| ==>
              var listed, loaded := doc.entries.value[at[k]].spec, Accepted(Some(doc), rest).value[k];
              loaded == listed.(drift := loaded.drift, release := loaded.release) &&
              (if listed.drift != "" then loaded.drift == listed.drift
               else loaded.drift == if listed.isSelf then "live" else "manifest") &&
              (if listed.release == Some("") then loaded.release == Some(listed.name) else loaded.release == listed.release)
  {
    at := KeptAt(doc.entries.value);
    KeptHoldsItems(doc.entries.value);
    hide Kept, KeptAt, Admissible;
  }

  /** ^[a-z0-9][a-z0-9._-]*$, by code point. */
  ghost predicate WellNamed(s: string) {
    s != "" && s[0] !in {'.', '_', '-'} &&
    forall c :: c in s ==> 97 <= c as int <= 122 || 48 <= c as int <= 57 || c in {'.', '_', '-'}
  }

  /** The release a chart source claims: its own name, or the application's. */
  ghost function ClaimOf(spec: Spec): Option<string> {
    match spec.release
    case Some("") => Some(spec.name)
    case claim => claim
  }

  ghost predicate ListedWell(spec: Spec, rest: string -> bool) {
    WellNamed(spec.name) && spec.drift in {"", "manifest", "live"} && rest(spec.rest) &&
    (spec.isSelf ==> spec.release.Some? && spec.drift != "manifest")
  }

  ghost predicate ListedApart(a: Spec, b: Spec) {
    a.name != b.name && !(a.isSelf && b.isSelf) &&
    (ClaimOf(a).Some? && ClaimOf(b).Some? ==> Fold(ClaimOf(a).value) != Fold(ClaimOf(b).value))
  }

  /** What a document has to be to load: a known version, and a list whose entries
      are sound and apart, with at least one application unless it is an empty list
      in the only document. */
  ghost predicate Loadable(doc: Document, rest: string -> bool) {
    doc.version in {"", "v1"} && doc.entries.Some? &&
    var list := doc.entries.value;
    ((exists i :: 0 <= i < |list| && list[i].Item?) || (list == [] && !doc.more)) &&
    EntriesApart(list, rest)
  }

  lemma NamesMean(s: string)
    ensures IsName(s) <==> WellNamed(s)
  {
    if s != "" { assert s[0] in s; }
  }

  lemma DefaultsMean(a: Spec, rest: string -> bool)
    ensures Sound(Defaulted(a), rest) <==> ListedWell(a, rest)
  {
    NamesMean(a.name);
    hide IsName, WellNamed;
  }

  lemma ClashesMean(a: Spec, b: Spec)
    ensures Clash(Defaulted(a), Defaulted(b)) <==> !ListedApart(a, b)
  {
    hide Fold;
  }

  ghost predicate AllApart(specs: seq<Spec>, rest: string -> bool) {
    (forall i :: 0 <= i < |specs| ==> ListedWell(specs[i], rest)) &&
    forall i, j :: 0 <= i < j < |specs| ==> ListedApart(specs[i], specs[j])
  }

  ghost predicate EntriesApart(list: seq<Entry>, rest: string -> bool) {
    (forall i :: 0 <= i < |list| && list[i].Item? ==> ListedWell(list[i].spec, rest)) &&
    forall i, j :: 0 <= i < j < |list| && list[i].Item? && list[j].Item? ==> ListedApart(list[i].spec, list[j].spec)
  }

  lemma AdmissibleMeans(specs: seq<Spec>, rest: string -> bool)
    ensures Admissible(DefaultedAll(specs), rest) <==> AllApart(specs, rest)
  {
    var all := DefaultedAll(specs);
    forall i | 0 <= i < |specs| ensures Sound(all[i], rest) <==> ListedWell(specs[i], rest) { DefaultsMean(specs[i], rest); }
    forall i, j | 0 <= i < |specs| && 0 <= j < |specs| ensures Clash(all[i], all[j]) <==> !ListedApart(specs[i], specs[j]) {
      ClashesMean(specs[i], specs[j]);
    }
    hide Defaulted, Sound, Clash, ListedWell, ListedApart;
  }

  /** What is said of the entries that are kept is said of those that are listed. */
  lemma KeptApart(specs: seq<Spec>, list: seq<Entry>, at: seq<nat>, rest: string -> bool)
    requires HoldsItems(specs, list, at)
    ensures AllApart(specs, rest) <==> EntriesApart(list, rest)
  {
    hide ListedWell, ListedApart;
    if AllApart(specs, rest) {
      forall i | 0 <= i < |list| && list[i].Item? ensures ListedWell(list[i].spec, rest) {
        var k :| 0 <= k < |at| && at[k] == i;
      }
      forall i, j | 0 <= i < j < |list| && list[i].Item? && list[j].Item? ensures ListedApart(list[i].spec, list[j].spec) {
        var k :| 0 <= k < |at| && at[k] == i;
        var l :| 0 <= l < |at| && at[l] == j;
        assert k < l;
      }
    }
  }

  /** A document loads exactly when it is loadable. */
  lemma LoadsExactly(doc: Document, rest: string -> bool)
    ensures Accepted(Some(doc), rest).Some? <==> Loadable(doc, rest)
  {
    hide Kept, KeptAt, Admissible, AllApart, ListedWell, ListedApart, DefaultedAll;
    if doc.entries.Some? {
      var list := doc.entries.value;
      var kept, at := Kept(list), KeptAt(list);
      KeptHoldsItems(list);
      KeptApart(kept, list, at, rest);
      AdmissibleMeans(kept, rest);
      if kept != [] {
        assert list[at[0]].Item?;
      }
      if i :| 0 <= i < |list| && list[i].Item? {
        assert i in at;
      }
    }
  }
}
