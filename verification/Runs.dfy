/** What holds over every run of the app-set loop, whatever fails and whatever
    else writes to the swarm (appset/loop.go, prune/prune.go). */
module Runs {
  import opened Text
  import opened Config
  import opened Passes
  import Names
  import Prune

  // --- runs ---

  function StateAfter(setup: Setup, init: State, inputs: seq<Input>): State {
    if inputs == [] then init
    else After(setup, StateAfter(setup, init, inputs[..|inputs| - 1]), inputs[|inputs| - 1])
  }

  /** A run meets only sets that passed validation, so their names are unique. */
  ghost predicate Validated(inputs: seq<Input>) {
    forall i :: 0 <= i < |inputs| && inputs[i].load.Some? ==> Distinct(NamesOf(inputs[i].load.value))
  }

  /** The last pass of a run that reached the sweep: its load and its apply both
      succeeded. */
  function LastReached(setup: Setup, init: State, inputs: seq<Input>): Option<Input> {
    if inputs == [] then None
    else
      var before, last := inputs[..|inputs| - 1], inputs[|inputs| - 1];
      if Reaches(StateAfter(setup, init, before), last) then Some(last) else LastReached(setup, init, before)
  }

  // --- the status lists ---

  /** Nothing is reported twice, and nothing under two headings: an application
      runs, or is orphaned, or was pruned. */
  ghost predicate Consistent(st: State) {
    Distinct(NamesOf(st.running)) && Distinct(st.orphaned) && Distinct(st.pruned) &&
    (forall n :: n in st.orphaned ==> n !in NamesOf(st.running)) &&
    (forall n :: n in st.pruned ==> n !in NamesOf(st.running) && n !in st.orphaned)
  }

  lemma DistinctSnoc<T>(s: seq<T>, x: T)
    ensures Distinct(s + [x]) <==> Distinct(s) && x !in s
  {
    var t := s + [x];
    assert t[|s|] == x && forall i :: 0 <= i < |s| ==> t[i] == s[i];
    if Distinct(t) {
      forall i, j | 0 <= i < j < |s| ensures s[i] != s[j] { assert t[i] != t[j]; }
    }
  }

  lemma NamesSnoc(running: seq<Spec>, spec: Spec)
    ensures NamesOf(running + [spec]) == NamesOf(running) + [spec.name]
  {
  }

  lemma {:induction false} DropNames(running: seq<Spec>, name: string)
    ensures forall n :: n in NamesOf(Drop(running, name)) <==> n in NamesOf(running) && n != name
    ensures Distinct(NamesOf(running)) ==> Distinct(NamesOf(Drop(running, name)))
    decreases |running|
  {
    if running != [] {
      var k := |running| - 1;
      var rest := Drop(running[..k], name);
      assert running == running[..k] + [running[k]];
      assert Drop(running, name) == if running[k].name == name then rest else rest + [running[k]];
      hide NamesOf, Distinct, Drop;
      DropNames(running[..k], name);
      NamesSnoc(running[..k], running[k]);
      NamesSnoc(rest, running[k]);
      DistinctSnoc(NamesOf(running[..k]), running[k].name);
      DistinctSnoc(NamesOf(rest), running[k].name);
    }
  }

  lemma JoinedOnce(s: seq<string>, x: string)
    ensures forall n :: n in Joined(s, x) <==> n in s || n == x
    ensures Distinct(s) ==> Distinct(Joined(s, x))
  {
  }

  lemma {:induction false} RemovesKeep(st: State, names: seq<string>, refused: set<string>)
    requires Consistent(st) && forall n :: n in names ==> n in NamesOf(st.running)
    ensures Consistent(AfterRemoves(st, names, refused))
    ensures AfterRemoves(st, names, refused).pruned == st.pruned
    decreases |names|
  {
    if names != [] {
      var k := |names| - 1;
      RemovesKeep(st, names[..k], refused);
      var before := AfterRemoves(st, names[..k], refused);
      assert names[k] in names;
      DropNames(before.running, names[k]);
      JoinedOnce(before.orphaned, names[k]);
      hide NamesOf, Distinct, Drop, Joined;
    }
  }

  lemma {:induction false} ReplacesKeep(st: State, specs: seq<Spec>, refused: set<string>)
    ensures AfterReplaces(st, specs, refused) == st.(running := AfterReplaces(st, specs, refused).running)
    ensures NamesOf(AfterReplaces(st, specs, refused).running) == NamesOf(st.running)
    decreases |specs|
  {
    if specs != [] {
      ReplacesKeep(st, specs[..|specs| - 1], refused);
    }
  }

  lemma {:induction false} AddsKeep(st: State, specs: seq<Spec>, refused: set<string>)
    requires Consistent(st) && Distinct(NamesOf(specs))
    requires forall n :: n in NamesOf(specs) ==> n !in NamesOf(st.running)
    ensures Consistent(AfterAdds(st, specs, refused))
    ensures forall n :: n in NamesOf(AfterAdds(st, specs, refused).running) ==> n in NamesOf(st.running) || n in NamesOf(specs)
    decreases |specs|
  {
    if specs != [] {
      var k := |specs| - 1;
      var before := AfterAdds(st, specs[..k], refused);
      assert specs == specs[..k] + [specs[k]];
      NamesSnoc(specs[..k], specs[k]);
      DistinctSnoc(NamesOf(specs[..k]), specs[k].name);
      NamesSnoc(before.running, specs[k]);
      DistinctSnoc(NamesOf(before.running), specs[k].name);
      hide NamesOf, Distinct;
      AddsKeep(st, specs[..k], refused);
    }
  }

  lemma {:induction false} AddsAreDistinct(running: seq<Spec>, desired: seq<Spec>)
    requires Distinct(NamesOf(desired))
    ensures Distinct(NamesOf(ToAdd(running, desired)))
    decreases |desired|
  {
    if desired != [] {
      var k := |desired| - 1;
      var rest := ToAdd(running, desired[..k]);
      LastNameIsNew(desired);
      AddsAreDistinct(running, desired[..k]);
      AddsMembers(running, desired[..k], desired[k].name);
      LookupMembers(rest, desired[k].name);
      NamesSnoc(rest, desired[k]);
      DistinctSnoc(NamesOf(rest), desired[k].name);
      assert rest + [] == rest;
      hide NamesOf, Distinct, Lookup;
    }
  }

  lemma ApplyKeeps(st: State, desired: seq<Spec>, r: Refusals)
    requires Consistent(st) && Distinct(NamesOf(desired))
    ensures Consistent(AfterApply(st, desired, r))
  {
    var removes, changes, adds := ToRemove(st.running, desired), ToReplace(st.running, desired), ToAdd(st.running, desired);
    var st1 := AfterRemoves(st, removes, r.remove);
    var st2 := AfterReplaces(st1, changes, r.credential + r.replace);
    forall n | n in removes ensures n in NamesOf(st.running) {
      RemovesMembers(st.running, desired, n);
      LookupMembers(st.running, n);
    }
    RemovesKeep(st, removes, r.remove);
    ReplacesKeep(st1, changes, r.credential + r.replace);
    AddsAreDistinct(st.running, desired);
    forall n | n in NamesOf(adds) ensures n !in NamesOf(st2.running) {
      AddsMembers(st.running, desired, n);
      LookupMembers(adds, n);
      LookupAfterRemoves(st, removes, r.remove, n);
      LookupMembers(st1.running, n);
    }
    hide NamesOf, Distinct, Lookup, ToAdd, ToReplace, ToRemove, AfterRemoves, AfterReplaces;
    AddsKeep(st2, adds, r.credential + r.add);
  }

  // --- what is reported ---

  lemma {:induction false} RemovesReport(st: State, names: seq<string>, refused: set<string>, n: string)
    ensures n in AfterRemoves(st, names, refused).orphaned <==> n in st.orphaned || (n in names && n !in refused)
    ensures AfterRemoves(st, names, refused).pruned == st.pruned
    decreases |names|
  {
    if names != [] {
      var k := |names| - 1;
      RemovesReport(st, names[..k], refused, n);
      assert names == names[..k] + [names[k]];
      hide Drop;
    }
  }

  lemma {:induction false} AddsReport(st: State, specs: seq<Spec>, refused: set<string>, n: string)
    ensures n in AfterAdds(st, specs, refused).orphaned <==> n in st.orphaned && !(n in NamesOf(specs) && n !in refused)
    ensures n in AfterAdds(st, specs, refused).pruned <==> n in st.pruned && !(n in NamesOf(specs) && n !in refused)
    decreases |specs|
  {
    if specs != [] {
      var k := |specs| - 1;
      AddsReport(st, specs[..k], refused, n);
      assert specs == specs[..k] + [specs[k]];
      NamesSnoc(specs[..k], specs[k]);
      hide NamesOf;
    }
  }

  /** The application leaves the running set in this pass, or joins it. */
  ghost predicate Leaves(st: State, desired: seq<Spec>, r: Refusals, n: string) {
    n in NamesOf(st.running) && n !in NamesOf(desired) && n !in r.remove
  }

  ghost predicate Joins(st: State, desired: seq<Spec>, r: Refusals, n: string) {
    n !in NamesOf(st.running) && n in NamesOf(desired) && n !in r.credential && n !in r.add
  }

  /** What leaves is orphaned, until it is pruned or joins again. */
  lemma AppliesAreReported(st: State, desired: seq<Spec>, r: Refusals, n: string)
    requires Distinct(NamesOf(desired))
    ensures n in AfterApply(st, desired, r).orphaned <==>
            (n in st.orphaned || Leaves(st, desired, r, n)) && !Joins(st, desired, r, n)
    ensures n in AfterApply(st, desired, r).pruned <==> n in st.pruned && !Joins(st, desired, r, n)
  {
    var removes, changes, adds := ToRemove(st.running, desired), ToReplace(st.running, desired), ToAdd(st.running, desired);
    RemovesMembers(st.running, desired, n);
    AddsMembers(st.running, desired, n);
    LookupMembers(st.running, n);
    LookupMembers(desired, n);
    LookupMembers(adds, n);
    var st1 := AfterRemoves(st, removes, r.remove);
    RemovesReport(st, removes, r.remove, n);
    ReplacesKeep(st1, changes, r.credential + r.replace);
    AddsReport(AfterReplaces(st1, changes, r.credential + r.replace), adds, r.credential + r.add, n);
    hide NamesOf, Distinct, Lookup, ToAdd, ToReplace, ToRemove, AfterRemoves, AfterReplaces, AfterAdds;
  }

  lemma {:induction false} RecordReports(st: State, names: seq<string>, n: string)
    ensures n in RecordPruned(st, names).pruned <==> n in st.pruned || n in names
    ensures n in RecordPruned(st, names).orphaned <==> n in st.orphaned && n !in names
    decreases |names|
  {
    if names != [] {
      var k := |names| - 1;
      RecordReports(st, names[..k], n);
      assert names == names[..k] + [names[k]];
    }
  }

  /** What a sweep reports pruned is listed as pruned and no longer as orphaned. */
  lemma SweepsAreReported(setup: Setup, st: State, desired: seq<Spec>, input: Input, n: string)
    ensures var gate := GateOf(setup, st, desired, input);
            var after := AfterPrune(setup, st, desired, input).0;
            var swept := gate.Sweep? && n in Prune.SweepOf(gate.keep, input.swarm).pruned;
            (n in after.pruned <==> n in st.pruned || swept) && (n in after.orphaned <==> n in st.orphaned && !swept)
  {
    hide Prune.SweepOf, Unplanned, DeclaredBy;
    var gate := GateOf(setup, st, desired, input);
    if gate.Sweep? {
      RecordReports(st.(emptyBefore := desired == [], heldBy := []), Prune.SweepOf(gate.keep, input.swarm).pruned, n);
    }
  }

  /** After a clean apply exactly the declared applications run. */
  lemma CleanApplyConverges(st: State, desired: seq<Spec>, r: Refusals, n: string)
    requires Distinct(NamesOf(desired)) && ApplyErrors(st, desired, r) == []
    ensures Lookup(AfterApply(st, desired, r).running, n) == Lookup(desired, n)
    ensures n in NamesOf(AfterApply(st, desired, r).running) <==> n in NamesOf(desired)
  {
    ApplySettles(st, desired, r, n);
    LookupMembers(AfterApply(st, desired, r).running, n);
    LookupMembers(desired, n);
  }

  lemma {:induction false} RecordKeeps(st: State, names: seq<string>)
    requires Consistent(st) && forall n :: n in names ==> n !in NamesOf(st.running)
    ensures Consistent(RecordPruned(st, names)) && RecordPruned(st, names).running == st.running
    decreases |names|
  {
    if names != [] {
      var k := |names| - 1;
      assert names[k] in names;
      RecordKeeps(st, names[..k]);
      JoinedOnce(RecordPruned(st, names[..k]).pruned, names[k]);
      hide NamesOf, Distinct, Joined;
    }
  }

  lemma PruneKeeps(setup: Setup, st: State, desired: seq<Spec>, input: Input)
    requires Consistent(st) && forall n :: n in NamesOf(st.running) ==> n in NamesOf(desired)
    ensures Consistent(AfterPrune(setup, st, desired, input).0)
  {
    hide Prune.SweepOf, Unplanned, DeclaredBy, Distinct;
    var gate := GateOf(setup, st, desired, input);
    if gate.Sweep? {
      var counted := st.(emptyBefore := desired == [], heldBy := []);
      Prune.PrunedAreDeparted(gate.keep, input.swarm);
      RecordKeeps(counted, Prune.SweepOf(gate.keep, input.swarm).pruned);
    }
  }

  lemma PassKeeps(setup: Setup, st: State, input: Input)
    requires Consistent(st) && (input.load.Some? ==> Distinct(NamesOf(input.load.value)))
    ensures Consistent(After(setup, st, input))
  {
    if input.load.Some? {
      var desired := input.load.value;
      var applied := AfterApply(st, desired, input.refusals);
      ApplyKeeps(st, desired, input.refusals);
      if Reaches(st, input) {
        forall n | n in NamesOf(applied.running) ensures n in NamesOf(desired) {
          CleanApplyConverges(st, desired, input.refusals, n);
        }
        PruneKeeps(setup, applied, desired, input);
      }
      hide NamesOf, Distinct, AfterApply, AfterPrune, ApplyErrors;
    }
  }

  /** In every state a run reaches, what runs, what is orphaned and what was
      pruned are disjoint and without duplicates. */
  lemma {:induction false} ReportsStayConsistent(setup: Setup, init: State, inputs: seq<Input>)
    requires Consistent(init) && Validated(inputs)
    ensures Consistent(StateAfter(setup, init, inputs))
    decreases |inputs|
  {
    if inputs != [] {
      var before := inputs[..|inputs| - 1];
      assert Validated(before);
      ReportsStayConsistent(setup, init, before);
      hide Consistent, After;
      PassKeeps(setup, StateAfter(setup, init, before), inputs[|inputs| - 1]);
    }
  }

  // --- what a pass may delete ---

  lemma {:induction false} UnplannedMembers(running: seq<Spec>, status: string -> Status)
    ensures Unplanned(running, status) == [] <==> forall spec :: spec in running ==> status(spec.name).planned
    decreases |running|
  {
    if running != [] {
      var k := |running| - 1;
      UnplannedMembers(running[..k], status);
      assert running == running[..k] + [running[k]];
    }
  }

  lemma {:induction false} JoinedAllMembers(s: seq<string>, xs: seq<string>)
    ensures forall n :: n in JoinedAll(s, xs) <==> n in s || n in xs
    decreases |xs|
  {
    if xs != [] {
      var k := |xs| - 1;
      JoinedAllMembers(s, xs[..k]);
      assert xs == xs[..k] + [xs[k]];
    }
  }

  /** Whether some running application's last plan declares a release. */
  ghost predicate Declares(running: seq<Spec>, status: string -> Status, release: string) {
    exists spec :: spec in running && release in status(spec.name).releases
  }

  lemma {:induction false} DeclaredMembers(running: seq<Spec>, status: string -> Status, release: string)
    ensures release in DeclaredBy(running, status) <==> Declares(running, status, release)
    decreases |running|
  {
    if running != [] {
      var k := |running| - 1;
      DeclaredMembers(running[..k], status, release);
      JoinedAllMembers(DeclaredBy(running[..k], status), status(running[k].name).releases);
      assert running == running[..k] + [running[k]];
      if Declares(running[..k], status, release) {
        var spec :| spec in running[..k] && release in status(spec.name).releases;
        assert spec in running;
      }
    }
  }

  /** The gates let a sweep through exactly when every running application has
      planned, nothing is draining, and an empty set was empty before. */
  ghost predicate Open(setup: Setup, st: State, input: Input) {
    setup.prunes && Reaches(st, input) && input.draining == [] &&
    (forall spec :: spec in AfterApply(st, input.load.value, input.refusals).running ==> input.status(spec.name).planned) &&
    (input.load.value == [] ==> st.emptyBefore)
  }

  /** The release carries this controller's stamp for an application that is not
      desired, and no running application declares it. */
  ghost predicate Departed(setup: Setup, st: State, input: Input, release: string)
    requires input.load.Some?
  {
    !Declares(AfterApply(st, input.load.value, input.refusals).running, input.status, release) &&
    StampedForNone(setup, input, release)
  }

  /** A release of the name is listed with the stamp that this controller writes on
      it for an application that is not desired. */
  ghost predicate StampedForNone(setup: Setup, input: Input, release: string)
    requires input.load.Some?
  {
    input.swarm.listing.Some? &&
    exists app :: Prune.Stamped(setup.controller, app, release) in input.swarm.listing.value &&
      Names.Stampable(app) && app !in NamesOf(input.load.value)
  }

  lemma {:induction false} AppliesLeaveTheGate(st: State, desired: seq<Spec>, r: Refusals)
    ensures AfterApply(st, desired, r).emptyBefore == st.emptyBefore
  {
    RemovesLeaveTheGate(st, ToRemove(st.running, desired), r.remove);
    var st1 := AfterRemoves(st, ToRemove(st.running, desired), r.remove);
    ReplacesKeep(st1, ToReplace(st.running, desired), r.credential + r.replace);
    AddsLeaveTheGate(AfterReplaces(st1, ToReplace(st.running, desired), r.credential + r.replace),
      ToAdd(st.running, desired), r.credential + r.add);
  }

  lemma {:induction false} RemovesLeaveTheGate(st: State, names: seq<string>, refused: set<string>)
    ensures AfterRemoves(st, names, refused).emptyBefore == st.emptyBefore
    decreases |names|
  {
    if names != [] { RemovesLeaveTheGate(st, names[..|names| - 1], refused); }
  }

  lemma {:induction false} AddsLeaveTheGate(st: State, specs: seq<Spec>, refused: set<string>)
    ensures AfterAdds(st, specs, refused).emptyBefore == st.emptyBefore
    decreases |specs|
  {
    if specs != [] { AddsLeaveTheGate(st, specs[..|specs| - 1], refused); }
  }

  lemma {:induction false} RecordLeavesTheGate(st: State, names: seq<string>)
    ensures RecordPruned(st, names).emptyBefore == st.emptyBefore
    decreases |names|
  {
    if names != [] { RecordLeavesTheGate(st, names[..|names| - 1]); }
  }

  /** The gate opens for exactly the passes described. */
  lemma GateIsOpen(setup: Setup, st: State, input: Input)
    requires Reaches(st, input)
    ensures GateOf(setup, AfterApply(st, input.load.value, input.refusals), input.load.value, input).Sweep? <==>
            Open(setup, st, input)
  {
    var applied := AfterApply(st, input.load.value, input.refusals);
    UnplannedMembers(applied.running, input.status);
    AppliesLeaveTheGate(st, input.load.value, input.refusals);
    hide AfterApply, Unplanned, DeclaredBy, ApplyErrors;
  }

  /** One pass tries to delete exactly the departed releases, and only through an
      open gate. */
  lemma DeletesExactly(setup: Setup, st: State, input: Input, release: string)
    ensures release in Attempted(setup, st, input) <==>
            Open(setup, st, input) && Departed(setup, st, input, release)
  {
    if Reaches(st, input) {
      GateIsOpen(setup, st, input);
      var applied := AfterApply(st, input.load.value, input.refusals);
      DeclaredMembers(applied.running, input.status, release);
      var keep := KeepOf(setup, input.load.value, applied.running, input.status);
      if input.swarm.listing.Some? {
        Prune.SweptExactly(input.swarm.listing.value, keep, release);
      }
      hide AfterApply, Open, DeclaredBy, Declares, Prune.Groups, Prune.Flatten, Reaches, ApplyErrors, Prune.Stamped;
    }
  }

  lemma {:induction false} EmptyBeforeIs(setup: Setup, init: State, inputs: seq<Input>)
    requires setup.prunes && !init.emptyBefore
    ensures StateAfter(setup, init, inputs).emptyBefore <==>
            LastReached(setup, init, inputs).Some? && LastReached(setup, init, inputs).value.load == Some([])
    decreases |inputs|
  {
    if inputs != [] {
      var before, last := inputs[..|inputs| - 1], inputs[|inputs| - 1];
      EmptyBeforeIs(setup, init, before);
      var st := StateAfter(setup, init, before);
      if last.load.Some? {
        AppliesLeaveTheGate(st, last.load.value, last.refusals);
        PruneCounts(setup, AfterApply(st, last.load.value, last.refusals), last.load.value, last);
      }
      hide AfterApply, AfterPrune, ApplyErrors;
    }
  }

  lemma PruneCounts(setup: Setup, st: State, desired: seq<Spec>, input: Input)
    requires setup.prunes
    ensures AfterPrune(setup, st, desired, input).0.emptyBefore == (desired == [])
  {
    var gate := GateOf(setup, st, desired, input);
    if gate.Sweep? {
      hide Prune.SweepOf;
      RecordLeavesTheGate(st.(emptyBefore := desired == [], heldBy := []), Prune.SweepOf(gate.keep, input.swarm).pruned);
    }
  }

  /** Whole-run sweep safety. In every run, a pass that tries to delete a release
      loaded its set and applied it without a failure, every running application
      has planned and none declares the release, nothing is draining, the
      release's stamp names an application of this controller's that the set does
      not declare, and, when the set is empty, the last pass before it that
      reached the sweep loaded an empty set too. */
  lemma SweepsAreSafe(setup: Setup, init: State, inputs: seq<Input>, input: Input, release: string)
    requires !init.emptyBefore
    requires release in Attempted(setup, StateAfter(setup, init, inputs), input)
    ensures setup.prunes && input.load.Some? && input.draining == []
    ensures var st := StateAfter(setup, init, inputs);
            ApplyErrors(st, input.load.value, input.refusals) == [] &&
            Departed(setup, st, input, release) &&
            forall spec :: spec in AfterApply(st, input.load.value, input.refusals).running ==> input.status(spec.name).planned
    ensures input.load.value == [] ==>
              LastReached(setup, init, inputs).Some? && LastReached(setup, init, inputs).value.load == Some([])
  {
    hide AfterApply, ApplyErrors, Attempted, Departed;
    DeletesExactly(setup, StateAfter(setup, init, inputs), input, release);
    EmptyBeforeIs(setup, init, inputs);
  }

  /** What runs when a pass reads the statuses. */
  function RunningDuring(st: State, input: Input): seq<Spec> {
    if input.load.None? then st.running else AfterApply(st, input.load.value, input.refusals).running
  }

  /** A handover: under one name or another some application of `names` is declared,
      and whichever of them runs and has planned, by whatever spec it planned last,
      declares the release. */
  ghost predicate HandsOver(st: State, input: Input, names: set<string>, release: string) {
    (input.load.Some? ==> exists n :: n in names && n in NamesOf(input.load.value)) &&
    forall n :: n in names && n in NamesOf(RunningDuring(st, input)) && input.status(n).planned ==>
      release in input.status(n).releases
  }

  lemma HandoverIsDeclared(st: State, input: Input, names: set<string>, release: string)
    requires Reaches(st, input) && Distinct(NamesOf(input.load.value)) && HandsOver(st, input, names, release)
    requires forall spec :: spec in AfterApply(st, input.load.value, input.refusals).running ==> input.status(spec.name).planned
    ensures Declares(AfterApply(st, input.load.value, input.refusals).running, input.status, release)
  {
    var running := AfterApply(st, input.load.value, input.refusals).running;
    var n :| n in names && n in NamesOf(input.load.value);
    CleanApplyConverges(st, input.load.value, input.refusals, n);
    LookupMembers(running, n);
    var spec := Lookup(running, n).value;
    assert spec in running && spec.name == n;
  }

  /** Renaming an application that keeps its release never deletes the release,
      whatever fails in between and whoever's stamp it still carries. */
  lemma RenameKeepsTheRelease(setup: Setup, st: State, input: Input, names: set<string>, release: string)
    requires HandsOver(st, input, names, release)
    requires input.load.Some? ==> Distinct(NamesOf(input.load.value))
    ensures release !in Attempted(setup, st, input)
  {
    DeletesExactly(setup, st, input, release);
    if Open(setup, st, input) {
      HandoverIsDeclared(st, input, names, release);
    }
  }

  /** A spec that the run starts from or that one of its sets declares. */
  ghost predicate Seen(init: State, inputs: seq<Input>, spec: Spec) {
    spec in init.running || exists i :: 0 <= i < |inputs| && inputs[i].load.Some? && spec in inputs[i].load.value
  }

  function StatusAt(start: string -> Status, inputs: seq<Input>, n: string): Status {
    if inputs == [] then start(n) else inputs[|inputs| - 1].status(n)
  }

  /** How statuses come about over a run. An application that has planned kept the
      plan it had, as replacing it does, or one of its specs, of now or of before,
      has planned since; one that was just added keeps nothing. `may` says what a
      plan of a spec can declare. */
  ghost predicate Tracks(setup: Setup, init: State, inputs: seq<Input>, start: string -> Status, may: (Spec, seq<string>) -> bool)
    decreases |inputs|
  {
    inputs == [] ||
    var before, last := inputs[..|inputs| - 1], inputs[|inputs| - 1];
    Tracks(setup, init, before, start, may) &&
    var st := StateAfter(setup, init, before);
    forall n :: n in NamesOf(RunningDuring(st, last)) && last.status(n).planned ==>
      (n in NamesOf(st.running) && last.status(n) == StatusAt(start, before, n)) ||
      exists spec :: Seen(init, inputs, spec) && spec.name == n && may(spec, last.status(n).releases)
  }

  /** Every plan of every spec under these names declares the release. */
  ghost predicate Heirs(init: State, inputs: seq<Input>, may: (Spec, seq<string>) -> bool, names: set<string>, release: string) {
    forall spec, declared :: Seen(init, inputs, spec) && spec.name in names && may(spec, declared) ==> release in declared
  }

  lemma PassRuns(setup: Setup, st: State, input: Input)
    ensures After(setup, st, input).running == RunningDuring(st, input)
  {
    hide AfterApply, ApplyErrors, Unplanned, DeclaredBy, Prune.SweepOf;
    if Reaches(st, input) {
      var applied := AfterApply(st, input.load.value, input.refusals);
      var gate := GateOf(setup, applied, input.load.value, input);
      if gate.Sweep? {
        RecordRuns(applied.(emptyBefore := input.load.value == [], heldBy := []), Prune.SweepOf(gate.keep, input.swarm).pruned);
      }
    }
  }

  lemma {:induction false} RecordRuns(st: State, names: seq<string>)
    ensures RecordPruned(st, names).running == st.running
    decreases |names|
  {
    if names != [] { RecordRuns(st, names[..|names| - 1]); }
  }

  /** So in every run whatever runs under the names and has planned declares the
      release. */
  lemma {:induction false} HeirsDeclare(setup: Setup, init: State, inputs: seq<Input>, start: string -> Status,
                                        may: (Spec, seq<string>) -> bool, names: set<string>, release: string, n: string)
    requires inputs != [] && Tracks(setup, init, inputs, start, may) && Heirs(init, inputs, may, names, release)
    requires forall m :: m in names && m in NamesOf(init.running) && start(m).planned ==> release in start(m).releases
    requires n in names && n in NamesOf(RunningDuring(StateAfter(setup, init, inputs[..|inputs| - 1]), inputs[|inputs| - 1]))
    ensures var now := inputs[|inputs| - 1].status(n); now.planned ==> release in now.releases
    decreases |inputs|
  {
    hide After, RunningDuring, NamesOf, Reaches;
    var before, last := inputs[..|inputs| - 1], inputs[|inputs| - 1];
    var st := StateAfter(setup, init, before);
    if last.status(n).planned && n in NamesOf(st.running) && last.status(n) == StatusAt(start, before, n) && before != [] {
      PassRuns(setup, StateAfter(setup, init, before[..|before| - 1]), before[|before| - 1]);
      FewerSeen(init, before, last, may, names, release);
      HeirsDeclare(setup, init, before, start, may, names, release, n);
    }
  }

  lemma FewerSeen(init: State, before: seq<Input>, last: Input, may: (Spec, seq<string>) -> bool, names: set<string>, release: string)
    requires Heirs(init, before + [last], may, names, release)
    ensures Heirs(init, before, may, names, release)
  {
    forall spec | Seen(init, before, spec) ensures Seen(init, before + [last], spec) {
      if spec !in init.running {
        var i :| 0 <= i < |before| && before[i].load.Some? && spec in before[i].load.value;
        assert (before + [last])[i] == before[i];
      }
    }
  }

  /** Renaming is safe over whole runs. If whatever the run meets under these names
      declares the release whenever it plans, then no pass whose set declares one of
      the names tries to delete it: not while the heir has yet to plan, not when
      changes fail and are tried again, not when the names alternate. */
  lemma RenamesAreSafe(setup: Setup, init: State, inputs: seq<Input>, input: Input, start: string -> Status,
                       may: (Spec, seq<string>) -> bool, names: set<string>, release: string)
    requires Tracks(setup, init, inputs + [input], start, may) && Heirs(init, inputs + [input], may, names, release)
    requires forall m :: m in names && m in NamesOf(init.running) && start(m).planned ==> release in start(m).releases
    requires input.load.Some? ==> Distinct(NamesOf(input.load.value)) && exists n :: n in names && n in NamesOf(input.load.value)
    ensures release !in Attempted(setup, StateAfter(setup, init, inputs), input)
  {
    var st := StateAfter(setup, init, inputs);
    assert (inputs + [input])[..|inputs|] == inputs;
    hide NamesOf, Distinct, RunningDuring, Attempted, Heirs, Tracks, StateAfter;
    forall n | n in names && n in NamesOf(RunningDuring(st, input)) && input.status(n).planned
      ensures release in input.status(n).releases
    {
      HeirsDeclare(setup, init, inputs + [input], start, may, names, release, n);
    }
    RenameKeepsTheRelease(setup, st, input, names, release);
  }

  /** A release handed over to one heir, when nothing else holds the sweep or
      declares the release: it is kept exactly while the heir has not planned, or
      by its last plan declares it. */
  lemma HeirKeepsTheRelease(setup: Setup, st: State, input: Input, heir: string, release: string)
    requires setup.prunes && Reaches(st, input) && input.draining == [] && StampedForNone(setup, input, release)
    requires Distinct(NamesOf(input.load.value)) && heir in NamesOf(input.load.value)
    requires forall spec :: spec in AfterApply(st, input.load.value, input.refusals).running && spec.name != heir ==>
               input.status(spec.name).planned && release !in input.status(spec.name).releases
    ensures release in Attempted(setup, st, input) <==>
            input.status(heir).planned && release !in input.status(heir).releases
  {
    var running := AfterApply(st, input.load.value, input.refusals).running;
    DeletesExactly(setup, st, input, release);
    CleanApplyConverges(st, input.load.value, input.refusals, heir);
    LookupMembers(running, heir);
    var own := Lookup(running, heir).value;
    assert own in running && own.name == heir;
    hide AfterApply, NamesOf, Distinct, Lookup, StampedForNone, Attempted, ApplyErrors;
  }

  function PlannedBefore(name: string): Status {
    Status(true, if name == "a" then ["r"] else [])
  }

  function NothingFails(name: string): Prune.Outcome { Prune.Removed }

  function NotRelisted(app: string): Option<set<string>> { None }

  /** So a release moved to an application that already runs can be swept: a, whose
      release r is, leaves the set as b is changed to declare r, and b's last plan,
      which replacing b keeps, is of b as it was. */
  lemma MovedToRunningIsSwept()
    ensures var a, b, moved := Spec("a", false, "", None, "r"), Spec("b", false, "", None, ""), Spec("b", false, "", None, "r");
            var st := State([a, b], [], [], [], false, false, NO_TROUBLE);
            var r := Prune.Release("r", Some(Prune.Stamp("cd/default/a", "release", "r")));
            var input := Input(Some([moved]), true, false, Refusals({}, {}, {}, {}), PlannedBefore, [],
                           Prune.Swarm(Some([r]), NothingFails, NotRelisted), false);
            AfterApply(st, [moved], input.refusals).running == [moved] && "r" in Attempted(Setup(true, ""), st, input)
  {
    var a, b, moved := Spec("a", false, "", None, "r"), Spec("b", false, "", None, ""), Spec("b", false, "", None, "r");
    var st := State([a, b], [], [], [], false, false, NO_TROUBLE);
    var r := Prune.Release("r", Some(Prune.Stamp("cd/default/a", "release", "r")));
    var input := Input(Some([moved]), true, false, Refusals({}, {}, {}, {}), PlannedBefore, [],
                   Prune.Swarm(Some([r]), NothingFails, NotRelisted), false);
    hide AfterApply, ApplyErrors, Attempted;
    StampedForA(input, r);
    MovedSweeps(Setup(true, ""), a, b, moved, st, input, "r");
  }

  lemma StampedForA(input: Input, r: Prune.Release)
    requires r == Prune.Release("r", Some(Prune.Stamp("cd/default/a", "release", "r")))
    requires input.load.Some? && NamesOf(input.load.value) == ["b"] && input.swarm.listing == Some([r])
    ensures StampedForNone(Setup(true, ""), input, "r")
  {
    assert Names.OwnerID("", "a") == "cd/default/a";
    assert r == Prune.Stamped("", "a", "r") && r in input.swarm.listing.value;
  }

  lemma MovedSweeps(setup: Setup, a: Spec, b: Spec, moved: Spec, st: State, input: Input, release: string)
    requires a.name != b.name == moved.name && moved != b && st.running == [a, b]
    requires input.load == Some([moved]) && input.refusals == Refusals({}, {}, {}, {}) && input.draining == []
    requires setup.prunes && StampedForNone(setup, input, release)
    requires input.status(b.name).planned && release !in input.status(b.name).releases
    ensures AfterApply(st, [moved], input.refusals).running == [moved] && release in Attempted(setup, st, input)
  {
    MovedApplies(a, b, moved, st, input.refusals);
    hide AfterApply, ApplyErrors, Attempted, StampedForNone;
    HeirKeepsTheRelease(setup, st, input, b.name, release);
  }

  /** Its apply: a is removed and b replaced. */
  lemma MovedApplies(a: Spec, b: Spec, moved: Spec, st: State, r: Refusals)
    requires a.name != b.name == moved.name && moved != b && st.running == [a, b] && r == Refusals({}, {}, {}, {})
    ensures AfterApply(st, [moved], r).running == [moved] && ApplyErrors(st, [moved], r) == []
  {
    MovedDiffers(a, b, moved);
    OneRemoved(st, a.name);
    DropsFirst(a, b);
    var removed := AfterRemoves(st, [a.name], {});
    OneReplaced(removed, moved);
    hide ToRemove, ToReplace, ToAdd, AfterRemoves, AfterReplaces, Drop;
    assert Put([b], moved) == [moved];
    assert {} + {} == r.credential + r.replace == {};
    assert NamesOf([moved]) == [moved.name];
  }

  lemma OneRemoved(st: State, name: string)
    ensures AfterRemoves(st, [name], {}).running == Drop(st.running, name) && RefusedOf([name], {}) == []
  {
    assert [name][..0] == [];
    assert AfterRemoves(st, [], {}) == st && RefusedOf([], {}) == [];
  }

  lemma OneReplaced(st: State, spec: Spec)
    ensures AfterReplaces(st, [spec], {}) == st.(running := Put(st.running, spec)) && RefusedOf([spec.name], {}) == []
  {
    assert [spec][..0] == [] && [spec.name][..0] == [];
    assert AfterReplaces(st, [], {}) == st && RefusedOf([], {}) == [];
  }

  lemma DropsFirst(a: Spec, b: Spec)
    requires a.name != b.name
    ensures Drop([a, b], a.name) == [b]
  {
    assert [a, b][..1] == [a] && [a][..0] == [];
    assert Drop([a], a.name) == [];
  }

  lemma MovedDiffers(a: Spec, b: Spec, moved: Spec)
    requires a.name != b.name == moved.name && moved != b
    ensures ToRemove([a, b], [moved]) == [a.name] && ToReplace([a, b], [moved]) == [moved] && ToAdd([a, b], [moved]) == []
  {
    assert [a, b][..1] == [a] && [a][..0] == [] && [moved][..0] == [];
    assert Lookup([moved], a.name) == None && Lookup([moved], b.name) == Some(moved) && Lookup([a, b], b.name) == Some(b);
    hide Lookup;
    assert ToRemove([], [moved]) == [];
    assert ToRemove([a], [moved]) == [a.name];
    assert ToReplace([a, b], []) == [] && ToAdd([a, b], []) == [];
  }

  /** Controllers with different ids that share a swarm never try to delete each
      other's releases: whatever states they are in and whatever either did
      before, a release stamped by one is not attempted by the other. */
  lemma ControllersStayApart(mine: Setup, st: State, input: Input, theirs: string, app: string, release: string)
    requires Names.Effective(mine.controller) != Names.Effective(theirs) && Names.Stampable(app)
    requires input.swarm.listing.Some? && Prune.Stamped(theirs, app, release) in input.swarm.listing.value
    requires forall other :: other in input.swarm.listing.value && other.name == release ==> other == Prune.Stamped(theirs, app, release)
    ensures release !in Attempted(mine, st, input)
  {
    DeletesExactly(mine, st, input, release);
    Names.StampsKeepControllersApart(mine.controller, theirs);
    hide Attempted, Open, Names.AppFromOwnerID, Names.OwnerID;
    if release in Attempted(mine, st, input) {
      var other :| Prune.Stamped(mine.controller, other, release) in input.swarm.listing.value && Names.Stampable(other);
      Names.StampIsExact(mine.controller, other, Names.OwnerID(mine.controller, other));
      Names.StampIsExact(theirs, app, Names.OwnerID(theirs, app));
    }
  }
}
