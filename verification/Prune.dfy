/** Which releases a sweep deletes and what it reports (prune/prune.go).

    A release is swept when its stamp names an application of this controller's
    that has left the app set, and no application still in it declares the
    release. */
module Prune {
  import opened Text
  import opened Names

  const KIND_RELEASE := "release"

  /** A parsed owner stamp: the id, and the kind and name of what it was put on. */
  datatype Stamp = Stamp(id: string, kind: string, name: string)

  /** A release as the swarm lists it; a stamp that does not parse is None. */
  datatype Release = Release(name: string, stamp: Option<Stamp>)

  function Owner(rel: Release, controller: string): Option<string> {
    if rel.stamp.None? then None
    else if rel.stamp.value.kind != KIND_RELEASE || rel.stamp.value.name != rel.name then None
    else AppFromOwnerID(controller, rel.stamp.value.id)
  }

  /** Both halves of the stamp count: a release is an application's exactly when its
      stamp is the one this controller writes for that application on a release of
      that name. One copied from another release is not. */
  lemma OwnerIsExact(rel: Release, controller: string, app: string)
    ensures Owner(rel, controller) == Some(app) <==>
            rel == Stamped(controller, app, rel.name) && Stampable(app)
  {
    if rel.stamp.Some? { StampIsExact(controller, app, rel.stamp.value.id); }
    hide AppFromOwnerID, OwnerID;
  }

  /** A release as this controller stamps it for an application. */
  function Stamped(controller: string, app: string, release: string): Release {
    Release(release, Some(Stamp(OwnerID(controller, app), "release", release)))
  }

  /** What one sweep is told: the applications desired, and the releases those
      still running declare. */
  datatype Keep = Keep(desired: seq<string>, declared: seq<string>, controller: string)

  predicate Doomed(rel: Release, keep: Keep) {
    Owner(rel, keep.controller).Some? &&
    Owner(rel, keep.controller).value !in keep.desired && rel.name !in keep.declared
  }

  function OwnerOf(rel: Release, keep: Keep): string
    requires Doomed(rel, keep)
  {
    Owner(rel, keep.controller).value
  }

  /** The names of the doomed releases of one application, as listed. */
  function ReleasesOf(releases: seq<Release>, app: string, keep: Keep): seq<string> {
    if releases == [] then []
    else
      var n := |releases| - 1;
      ReleasesOf(releases[..n], app, keep) +
      if Doomed(releases[n], keep) && OwnerOf(releases[n], keep) == app then [releases[n].name] else []
  }

  /** The applications with a doomed release, each once, in the order first met. */
  function DepartedNames(releases: seq<Release>, keep: Keep): seq<string> {
    if releases == [] then []
    else
      var n := |releases| - 1;
      var before := DepartedNames(releases[..n], keep);
      if Doomed(releases[n], keep) && OwnerOf(releases[n], keep) !in before
      then before + [OwnerOf(releases[n], keep)] else before
  }

  function DoomedNames(releases: seq<Release>, keep: Keep): seq<string> {
    if releases == [] then []
    else
      var n := |releases| - 1;
      DoomedNames(releases[..n], keep) + if Doomed(releases[n], keep) then [releases[n].name] else []
  }

  datatype Group = Group(app: string, releases: seq<string>)

  /** The grouping the sweep acts on. */
  function Groups(releases: seq<Release>, keep: Keep): (r: seq<Group>)
    ensures |r| == |DepartedNames(releases, keep)|
    ensures forall i :: 0 <= i < |r| ==> r[i].app == DepartedNames(releases, keep)[i]
    ensures forall i :: 0 <= i < |r| ==> r[i].releases == ReleasesOf(releases, r[i].app, keep)
  {
    var names := DepartedNames(releases, keep);
    seq(|names|, i requires 0 <= i < |names| => Group(names[i], ReleasesOf(releases, names[i], keep)))
  }

  lemma {:induction false} DepartedNamesAreOwners(releases: seq<Release>, keep: Keep)
    ensures Distinct(DepartedNames(releases, keep))
    ensures forall app :: app in DepartedNames(releases, keep) <==>
              exists rel :: rel in releases && Doomed(rel, keep) && OwnerOf(rel, keep) == app
    ensures forall app :: app in DepartedNames(releases, keep) <==> ReleasesOf(releases, app, keep) != []
    decreases |releases|
  {
    if releases != [] {
      var n := |releases| - 1;
      DepartedNamesAreOwners(releases[..n], keep);
      assert releases == releases[..n] + [releases[n]];
    }
  }

  lemma ReleasesOfNext(releases: seq<Release>, rel: Release, keep: Keep)
    ensures forall app :: ReleasesOf(releases + [rel], app, keep) ==
              ReleasesOf(releases, app, keep) + if Doomed(rel, keep) && OwnerOf(rel, keep) == app then [rel.name] else []
    ensures DepartedNames(releases + [rel], keep) ==
            if Doomed(rel, keep) && OwnerOf(rel, keep) !in DepartedNames(releases, keep)
            then DepartedNames(releases, keep) + [OwnerOf(rel, keep)] else DepartedNames(releases, keep)
  {
  }

  lemma GroupsAre(releases: seq<Release>, keep: Keep, groups: seq<Group>)
    requires |groups| == |DepartedNames(releases, keep)|
    requires forall i :: 0 <= i < |groups| ==> groups[i].app == DepartedNames(releases, keep)[i]
    requires forall i :: 0 <= i < |groups| ==> groups[i].releases == ReleasesOf(releases, groups[i].app, keep)
    ensures Groups(releases, keep) == groups
  {
  }

  /** A release that is not doomed leaves the grouping alone, and one of an
      application already met joins that application's group. */
  lemma GroupsJoined(releases: seq<Release>, rel: Release, keep: Keep, k: nat)
    requires Doomed(rel, keep) ==> k < |Groups(releases, keep)| && Groups(releases, keep)[k].app == OwnerOf(rel, keep)
    ensures Groups(releases + [rel], keep) ==
            var before := Groups(releases, keep);
            if Doomed(rel, keep) then before[k := Group(before[k].app, before[k].releases + [rel.name])] else before
  {
    ReleasesOfNext(releases, rel, keep);
    DepartedNamesAreOwners(releases, keep);
    hide DepartedNames, ReleasesOf, Doomed, OwnerOf;
    var before := Groups(releases, keep);
    GroupsAre(releases + [rel], keep,
      if Doomed(rel, keep) then before[k := Group(before[k].app, before[k].releases + [rel.name])] else before);
  }

  /** A doomed release of an application not met before opens a group. */
  lemma GroupsOpened(releases: seq<Release>, rel: Release, keep: Keep)
    requires Doomed(rel, keep) && OwnerOf(rel, keep) !in DepartedNames(releases, keep)
    ensures Groups(releases + [rel], keep) == Groups(releases, keep) + [Group(OwnerOf(rel, keep), [rel.name])]
  {
    ReleasesOfNext(releases, rel, keep);
    DepartedNamesAreOwners(releases, keep);
    hide DepartedNames, ReleasesOf, Doomed, OwnerOf;
    GroupsAre(releases + [rel], keep, Groups(releases, keep) + [Group(OwnerOf(rel, keep), [rel.name])]);
  }

  /** departed builds the grouping in one pass, remembering where each
      application's group is. */
  method DepartedApps(releases: seq<Release>, keep: Keep) returns (out: seq<Group>)
    ensures out == Groups(releases, keep)
  {
    hide Groups, ReleasesOf, AppFromOwnerID;
    out := [];
    var at: map<string, nat> := map[];
    assert out == Groups(releases[..0], keep);
    for i := 0 to |releases|
      invariant out == Groups(releases[..i], keep)
      invariant forall app :: app in at <==> app in DepartedNames(releases[..i], keep)
      invariant forall app :: app in at ==> at[app] < |out| && out[at[app]].app == app
    {
      var rel := releases[i];
      var app := Owner(rel, keep.controller);
      assert releases[..i + 1] == releases[..i] + [rel];
      ReleasesOfNext(releases[..i], rel, keep);
      hide DepartedNames;
      if app.None? || app.value in keep.desired || rel.name in keep.declared {
        GroupsJoined(releases[..i], rel, keep, 0);
      } else if app.value in at {
        var k := at[app.value];
        GroupsJoined(releases[..i], rel, keep, k);
        out := out[k := out[k].(releases := out[k].releases + [rel.name])];
      } else {
        GroupsOpened(releases[..i], rel, keep);
        at := at[app.value := |out|];
        out := out + [Group(app.value, [rel.name])];
      }
    }
    assert releases[..|releases|] == releases;
  }

  // --- the grouping is an exact partition ---

  function Flatten(groups: seq<Group>): seq<string> {
    if groups == [] then [] else Flatten(groups[..|groups| - 1]) + groups[|groups| - 1].releases
  }

  /** The groups' releases restricted to a list of applications. */
  function Gathered(releases: seq<Release>, apps: seq<string>, keep: Keep): seq<string> {
    if apps == [] then [] else Gathered(releases, apps[..|apps| - 1], keep) + ReleasesOf(releases, apps[|apps| - 1], keep)
  }

  lemma {:induction false} GatheredNext(releases: seq<Release>, rel: Release, apps: seq<string>, keep: Keep)
    requires Distinct(apps)
    ensures multiset(Gathered(releases + [rel], apps, keep)) ==
            multiset(Gathered(releases, apps, keep)) +
            if Doomed(rel, keep) && OwnerOf(rel, keep) in apps then multiset{rel.name} else multiset{}
    decreases |apps|
  {
    ReleasesOfNext(releases, rel, keep);
    hide DepartedNames, ReleasesOf, Doomed, OwnerOf;
    if apps != [] {
      var m := |apps| - 1;
      GatheredNext(releases, rel, apps[..m], keep);
      assert apps == apps[..m] + [apps[m]];
      assert apps[m] !in apps[..m];
      hide Distinct;
    }
  }

  lemma {:induction false} GroupsGather(releases: seq<Release>, keep: Keep, groups: seq<Group>, apps: seq<string>)
    requires |groups| == |apps|
    requires forall i :: 0 <= i < |apps| ==> groups[i] == Group(apps[i], ReleasesOf(releases, apps[i], keep))
    ensures Flatten(groups) == Gathered(releases, apps, keep)
    decreases |apps|
  {
    if apps != [] {
      var m := |apps| - 1;
      GroupsGather(releases, keep, groups[..m], apps[..m]);
    }
  }

  lemma GatheredNothing(releases: seq<Release>, app: string, apps: seq<string>, keep: Keep)
    requires ReleasesOf(releases, app, keep) == []
    ensures Gathered(releases, apps + [app], keep) == Gathered(releases, apps, keep)
  {
  }

  lemma {:induction false} GatheredIsDoomed(releases: seq<Release>, keep: Keep)
    ensures multiset(Gathered(releases, DepartedNames(releases, keep), keep)) == multiset(DoomedNames(releases, keep))
    decreases |releases|
  {
    if releases != [] {
      var n := |releases| - 1;
      var rel := releases[n];
      GatheredIsDoomed(releases[..n], keep);
      DepartedNamesAreOwners(releases[..n], keep);
      DepartedNamesAreOwners(releases, keep);
      assert releases == releases[..n] + [rel];
      var before, after := DepartedNames(releases[..n], keep), DepartedNames(releases, keep);
      GatheredNext(releases[..n], rel, after, keep);
      if after != before {
        GatheredNothing(releases[..n], OwnerOf(rel, keep), before, keep);
      }
    }
  }

  /** Every listed release is in exactly one group if it is doomed and in none
      otherwise, no group is empty, no application has two groups, and the groups
      stand in the order their applications were first met. */
  lemma GroupsPartition(releases: seq<Release>, keep: Keep)
    ensures multiset(Flatten(Groups(releases, keep))) == multiset(DoomedNames(releases, keep))
    ensures forall i :: 0 <= i < |Groups(releases, keep)| ==> Groups(releases, keep)[i].releases != []
    ensures forall i, j :: 0 <= i < j < |Groups(releases, keep)| ==> Groups(releases, keep)[i].app != Groups(releases, keep)[j].app
  {
    hide DepartedNames, ReleasesOf, Flatten, Gathered, DoomedNames, Doomed, OwnerOf, Groups;
    GatheredIsDoomed(releases, keep);
    DepartedNamesAreOwners(releases, keep);
    GroupsGather(releases, keep, Groups(releases, keep), DepartedNames(releases, keep));
  }

  lemma {:induction false} DoomedNamesMembers(releases: seq<Release>, keep: Keep, name: string)
    ensures name in DoomedNames(releases, keep) <==>
            exists rel :: rel in releases && rel.name == name && Doomed(rel, keep)
    decreases |releases|
  {
    if releases != [] {
      var n := |releases| - 1;
      DoomedNamesMembers(releases[..n], keep, name);
      assert releases == releases[..n] + [releases[n]];
    }
  }

  lemma DoomedIsStamped(releases: seq<Release>, keep: Keep, app: string, name: string)
    ensures (exists rel :: rel in releases && rel.name == name && Doomed(rel, keep) && OwnerOf(rel, keep) == app) <==>
            Stamped(keep.controller, app, name) in releases && Stampable(app) && app !in keep.desired && name !in keep.declared
  {
    OwnerIsExact(Stamped(keep.controller, app, name), keep.controller, app);
    forall rel | rel in releases && rel.name == name && Doomed(rel, keep) && OwnerOf(rel, keep) == app
      ensures rel == Stamped(keep.controller, app, name) && Stampable(app)
    {
      OwnerIsExact(rel, keep.controller, app);
    }
    hide Owner, Stamped;
  }

  /** A sweep acts on a name exactly when a release of the name is listed with this
      controller's own stamp, for an application that is not desired, and no
      application that is left declares it. */
  lemma SweptExactly(releases: seq<Release>, keep: Keep, name: string)
    ensures name in Flatten(Groups(releases, keep)) <==>
            name !in keep.declared &&
            exists app :: Stamped(keep.controller, app, name) in releases && Stampable(app) && app !in keep.desired
  {
    GroupsPartition(releases, keep);
    DoomedNamesMembers(releases, keep, name);
    var swept, doomed := Flatten(Groups(releases, keep)), DoomedNames(releases, keep);
    assert name in swept <==> name in multiset(swept);
    assert name in doomed <==> name in multiset(doomed);
    forall app
      ensures (exists rel :: rel in releases && rel.name == name && Doomed(rel, keep) && OwnerOf(rel, keep) == app) <==>
              Stamped(keep.controller, app, name) in releases && Stampable(app) && app !in keep.desired && name !in keep.declared
    {
      DoomedIsStamped(releases, keep, app, name);
    }
    hide Groups, Flatten, DoomedNames, Stamped, Owner;
    if rel :| rel in releases && rel.name == name && Doomed(rel, keep) {
      DoomedIsStamped(releases, keep, OwnerOf(rel, keep), name);
    }
  }

  /** And it acts on it under the application the stamp names. */
  lemma {:induction false} GroupsFollowStamps(releases: seq<Release>, keep: Keep, app: string, name: string)
    ensures name in ReleasesOf(releases, app, keep) <==>
            Stamped(keep.controller, app, name) in releases && Stampable(app) && app !in keep.desired && name !in keep.declared
    decreases |releases|
  {
    if releases != [] {
      var n := |releases| - 1;
      GroupsFollowStamps(releases[..n], keep, app, name);
      OwnerIsExact(releases[n], keep.controller, app);
      assert releases == releases[..n] + [releases[n]];
      hide Owner, Stamped;
      if releases[n].name == name { DoomedIsStamped([releases[n]], keep, app, name); }
    }
  }

  /** Two controllers with different ids never mark one release: whatever each
      of them keeps, nothing is doomed for both. */
  lemma ControllersSweepApart(rel: Release, mine: Keep, theirs: Keep)
    requires Effective(mine.controller) != Effective(theirs.controller)
    ensures !(Doomed(rel, mine) && Doomed(rel, theirs))
  {
    StampsKeepControllersApart(mine.controller, theirs.controller);
  }

  // --- the sweep and its report ---

  /** How uninstalling a release ended: done, refused because it is the stack the
      controller runs as, or failed. */
  datatype Outcome = Removed | OwnStack | Failed

  /** The swarm during one sweep: the listing it starts from, how each uninstall
      ends, and what the re-listing after an application's failures shows. */
  datatype Swarm = Swarm(
    listing: Option<seq<Release>>,
    outcome: string -> Outcome,
    relist: string -> Option<set<string>>)

  function FailedOf(releases: seq<string>, outcome: string -> Outcome): seq<string> {
    if releases == [] then []
    else
      FailedOf(releases[..|releases| - 1], outcome) +
      if outcome(releases[|releases| - 1]) == Failed then [releases[|releases| - 1]] else []
  }

  predicate LeavesOne(releases: seq<string>, outcome: string -> Outcome) {
    exists r :: r in releases && outcome(r) == OwnStack
  }

  /** Whether an application is reported pruned. After a failure the re-listing
      decides alone: a stack left standing as the controller's own is not asked
      about. */
  predicate ReportedPruned(g: Group, w: Swarm) {
    var failed := FailedOf(g.releases, w.outcome);
    if failed == [] then !LeavesOne(g.releases, w.outcome)
    else w.relist(g.app).Some? && forall r :: r in failed ==> r !in w.relist(g.app).value
  }

  function PrunedOf(groups: seq<Group>, w: Swarm): seq<string> {
    if groups == [] then []
    else
      PrunedOf(groups[..|groups| - 1], w) +
      if ReportedPruned(groups[|groups| - 1], w) then [groups[|groups| - 1].app] else []
  }

  predicate Errs(g: Group, w: Swarm) {
    FailedOf(g.releases, w.outcome) != [] && !ReportedPruned(g, w)
  }

  /** What a sweep did: the uninstalls it attempted, the applications it reports
      pruned, and whether it reports an error. */
  datatype Report = Report(attempted: seq<string>, pruned: seq<string>, failed: bool)

  function SweepOf(keep: Keep, w: Swarm): Report {
    if w.listing.None? then Report([], [], true)
    else
      var groups := Groups(w.listing.value, keep);
      Report(Flatten(groups), PrunedOf(groups, w), exists i :: 0 <= i < |groups| && Errs(groups[i], w))
  }

  /** One application's releases, one uninstall at a time. */
  method UninstallAll(g: Group, w: Swarm) returns (failed: seq<string>, left: nat)
    ensures failed == FailedOf(g.releases, w.outcome)
    ensures left > 0 <==> LeavesOne(g.releases, w.outcome)
  {
    failed, left := [], 0;
    for i := 0 to |g.releases|
      invariant failed == FailedOf(g.releases[..i], w.outcome)
      invariant left > 0 <==> LeavesOne(g.releases[..i], w.outcome)
    {
      var r := g.releases[i];
      assert g.releases[..i + 1] == g.releases[..i] + [r];
      match w.outcome(r) {
        case OwnStack => left := left + 1;
        case Failed => failed := failed + [r];
        case Removed =>
      }
    }
    assert g.releases[..|g.releases|] == g.releases;
  }

  function StillOf(failed: seq<string>, present: set<string>): seq<string> {
    FilterMap(failed, r => if r in present then Some(r) else None)
  }

  /** stillListed: the failures whose releases the swarm still has, in order. */
  method StillListed(failed: seq<string>, present: set<string>) returns (still: seq<string>)
    ensures still == StillOf(failed, present)
    ensures forall r :: r in still <==> r in failed && r in present
  {
    still := [];
    for i := 0 to |failed|
      invariant still == StillOf(failed[..i], present)
      invariant forall r :: r in still <==> r in failed[..i] && r in present
    {
      assert failed[..i + 1][..i] == failed[..i];
      if failed[i] in present { still := still + [failed[i]]; }
    }
    assert failed[..|failed|] == failed;
  }

  /** One application of the sweep: its uninstalls, then, after a failure, a
      fresh listing that decides whether they failed. */
  method SweepGroup(g: Group, w: Swarm) returns (pruned: bool, err: bool)
    ensures pruned == ReportedPruned(g, w)
    ensures err == Errs(g, w)
  {
    var failed, left := UninstallAll(g, w);
    hide FailedOf, LeavesOne;
    if |failed| == 0 { return left == 0, false; }
    var present := w.relist(g.app);
    if present.None? { return false, true; }
    var still := StillListed(failed, present.value);
    if |still| == 0 {
      assert forall r :: r in failed && r in present.value ==> r in still;
      return true, false;
    }
    assert still[0] in still;
    return false, true;
  }

  /** Departed: deletes the doomed releases group by group and reports. */
  method Departed(keep: Keep, w: Swarm) returns (report: Report)
    ensures report == SweepOf(keep, w)
  {
    hide Groups, Errs, ReportedPruned;
    if w.listing.None? { return Report([], [], true); }
    var groups := DepartedApps(w.listing.value, keep);
    var attempted, pruned, errs := [], [], false;
    for i := 0 to |groups|
      invariant attempted == Flatten(groups[..i])
      invariant pruned == PrunedOf(groups[..i], w)
      invariant errs <==> exists k :: 0 <= k < i && Errs(groups[k], w)
    {
      assert groups[..i + 1][..i] == groups[..i];
      attempted := attempted + groups[i].releases;
      var done, err := SweepGroup(groups[i], w);
      if done { pruned := pruned + [groups[i].app]; }
      errs := errs || err;
    }
    assert groups[..|groups|] == groups;
    report := Report(attempted, pruned, errs);
  }

  lemma {:induction false} PrunedOfMembers(groups: seq<Group>, w: Swarm)
    ensures forall app :: app in PrunedOf(groups, w) ==> exists i :: 0 <= i < |groups| && groups[i].app == app
    decreases |groups|
  {
    if groups != [] {
      var n := |groups| - 1;
      PrunedOfMembers(groups[..n], w);
      forall app | app in PrunedOf(groups, w) ensures exists i :: 0 <= i < |groups| && groups[i].app == app {
        if app in PrunedOf(groups[..n], w) {
          var i :| 0 <= i < n && groups[..n][i].app == app;
          assert groups[i].app == app;
        } else {
          assert groups[n].app == app;
        }
      }
    }
  }

  lemma {:induction false} PrunedOnce(groups: seq<Group>, w: Swarm)
    requires forall i, j :: 0 <= i < j < |groups| ==> groups[i].app != groups[j].app
    ensures Distinct(PrunedOf(groups, w))
    decreases |groups|
  {
    if groups != [] {
      var n := |groups| - 1;
      PrunedOnce(groups[..n], w);
      PrunedOfMembers(groups[..n], w);
      assert groups[n].app !in PrunedOf(groups[..n], w);
    }
  }

  /** The applications reported pruned are departed ones, each once. */
  lemma PrunedAreDeparted(keep: Keep, w: Swarm)
    ensures Distinct(SweepOf(keep, w).pruned)
    ensures forall app :: app in SweepOf(keep, w).pruned ==> app !in keep.desired
  {
    if w.listing.Some? {
      var groups := Groups(w.listing.value, keep);
      GroupsPartition(w.listing.value, keep);
      PrunedOfMembers(groups, w);
      PrunedOnce(groups, w);
      DepartedNamesAreOwners(w.listing.value, keep);
      forall app | app in PrunedOf(groups, w) ensures app !in keep.desired {
        var i :| 0 <= i < |groups| && groups[i].app == app;
        var rel :| rel in w.listing.value && Doomed(rel, keep) && OwnerOf(rel, keep) == app;
      }
    }
  }

  /** What uninstalling left standing as the controller's own. */
  function Standing(g: Group, outcome: string -> Outcome): set<string> {
    set r | r in g.releases && outcome(r) == OwnStack
  }

  /** "Reported pruned" does not mean that nothing was left standing. A listing
      that shows all that stands, and yet has the application reported pruned,
      exists exactly when one uninstall was refused as the controller's own stack
      and another reported a failure: the re-listing asks about the failures
      alone. */
  lemma PrunedCanLeaveOneStanding(g: Group, outcome: string -> Outcome)
    ensures (exists present: set<string> :: Standing(g, outcome) <= present &&
                ReportedPruned(g, Swarm(None, outcome, (a: string) => Some(present)))) && LeavesOne(g.releases, outcome)
            <==> LeavesOne(g.releases, outcome) && FailedOf(g.releases, outcome) != []
  {
    FailedReportedFailure(g.releases, outcome);
    var standing := Standing(g, outcome);
    var w := Swarm(None, outcome, (a: string) => Some(standing));
    if FailedOf(g.releases, outcome) != [] {
      assert ReportedPruned(g, w);
    }
  }

  function OwnRefused(release: string): Outcome { if release == "own" then OwnStack else Failed }

  function OwnListed(app: string): Option<set<string>> { Some({"own"}) }

  /** Two releases of app: own is refused as the controller's own stack, and
      removing other reports a failure although it worked. */
  lemma OneStandingIsReported()
    ensures var g := Group("app", ["own", "other"]);
            Standing(g, OwnRefused) == {"own"} && LeavesOne(g.releases, OwnRefused) &&
            ReportedPruned(g, Swarm(None, OwnRefused, OwnListed)) && !Errs(g, Swarm(None, OwnRefused, OwnListed))
  {
    var g := Group("app", ["own", "other"]);
    FailedReportedFailure(g.releases, OwnRefused);
    assert g.releases[0] == "own" && g.releases[1] == "other";
  }

  lemma {:induction false} FailedReportedFailure(releases: seq<string>, outcome: string -> Outcome)
    ensures forall r :: r in FailedOf(releases, outcome) <==> r in releases && outcome(r) == Failed
    decreases |releases|
  {
    if releases != [] {
      var n := |releases| - 1;
      FailedReportedFailure(releases[..n], outcome);
      assert releases == releases[..n] + [releases[n]];
    }
  }
}
