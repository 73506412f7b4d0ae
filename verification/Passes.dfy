/** One pass of the app-set loop as a function of what it meets, and what holds
    over every run of passes (appset/loop.go).

    The running set is the reconciler's; which of its calls fail, what its
    applications have planned, and how the swarm answers a sweep are inputs of a
    pass, all arbitrary. */
module Passes {
  import opened Text
  import opened Config
  import Prune

  function NamesOf(specs: seq<Spec>): (r: seq<string>)
    ensures |r| == |specs|
    ensures forall i :: 0 <= i < |r| ==> r[i] == specs[i].name
  {
    seq(|specs|, i requires 0 <= i < |specs| => specs[i].name)
  }

  /** What a list of specs holds under a name, a later entry shadowing an earlier. */
  function Lookup(specs: seq<Spec>, name: string): Option<Spec> {
    if specs == [] then None
    else if specs[|specs| - 1].name == name then Some(specs[|specs| - 1])
    else Lookup(specs[..|specs| - 1], name)
  }

  // --- diff ---

  function ToAdd(running: seq<Spec>, desired: seq<Spec>): seq<Spec> {
    if desired == [] then []
    else
      var last := desired[|desired| - 1];
      ToAdd(running, desired[..|desired| - 1]) + if Lookup(running, last.name).None? then [last] else []
  }

  function ToReplace(running: seq<Spec>, desired: seq<Spec>): seq<Spec> {
    if desired == [] then []
    else
      var last := desired[|desired| - 1];
      ToReplace(running, desired[..|desired| - 1]) +
      if Lookup(running, last.name).Some? && Lookup(running, last.name) != Some(last) then [last] else []
  }

  function ToRemove(running: seq<Spec>, desired: seq<Spec>): seq<string> {
    if running == [] then []
    else
      var last := running[|running| - 1];
      ToRemove(running[..|running| - 1], desired) + if Lookup(desired, last.name).Some? then [] else [last.name]
  }

  // --- the reconciler's own steps ---

  function Drop(running: seq<Spec>, name: string): seq<Spec> {
    if running == [] then []
    else
      var last := running[|running| - 1];
      Drop(running[..|running| - 1], name) + if last.name == name then [] else [last]
  }

  function Put(running: seq<Spec>, spec: Spec): (r: seq<Spec>)
    ensures NamesOf(r) == NamesOf(running)
  {
    seq(|running|, i requires 0 <= i < |running| => if running[i].name == spec.name then spec else running[i])
  }

  // --- the loop's state ---

  /** What a pass had to report: a failed load, the applications whose change
      failed, a failed sweep, a failed reclaim. */
  datatype Trouble = Trouble(load: bool, apply: seq<string>, sweep: bool, reclaim: bool)

  const NO_TROUBLE := Trouble(false, [], false, false)

  datatype State = State(
    running: seq<Spec>,
    orphaned: seq<string>,
    pruned: seq<string>,
    heldBy: seq<string>,
    emptyBefore: bool,
    stale: bool,
    lastErr: Trouble)

  /** The reconciler and credential calls that fail in a pass, by application. */
  datatype Refusals = Refusals(remove: set<string>, credential: set<string>, replace: set<string>, add: set<string>)

  function Joined(s: seq<string>, x: string): seq<string> {
    if x in s then s else s + [x]
  }

  function AfterRemoves(st: State, names: seq<string>, refused: set<string>): State {
    if names == [] then st
    else
      var before := AfterRemoves(st, names[..|names| - 1], refused);
      var name := names[|names| - 1];
      if name in refused then before
      else before.(running := Drop(before.running, name), orphaned := Joined(before.orphaned, name))
  }

  function AfterReplaces(st: State, specs: seq<Spec>, refused: set<string>): State {
    if specs == [] then st
    else
      var before := AfterReplaces(st, specs[..|specs| - 1], refused);
      var spec := specs[|specs| - 1];
      if spec.name in refused then before else before.(running := Put(before.running, spec))
  }

  function AfterAdds(st: State, specs: seq<Spec>, refused: set<string>): State {
    if specs == [] then st
    else
      var before := AfterAdds(st, specs[..|specs| - 1], refused);
      var spec := specs[|specs| - 1];
      if spec.name in refused then before
      else before.(running := before.running + [spec],
                   orphaned := Without(before.orphaned, spec.name),
                   pruned := Without(before.pruned, spec.name))
  }

  /** The names of a list that are refused, in order. */
  function RefusedOf(names: seq<string>, refused: set<string>): seq<string> {
    if names == [] then []
    else RefusedOf(names[..|names| - 1], refused) + if names[|names| - 1] in refused then [names[|names| - 1]] else []
  }

  function AfterApply(st: State, desired: seq<Spec>, r: Refusals): State {
    AfterAdds(
      AfterReplaces(
        AfterRemoves(st, ToRemove(st.running, desired), r.remove),
        ToReplace(st.running, desired), r.credential + r.replace),
      ToAdd(st.running, desired), r.credential + r.add)
  }

  /** The applications whose change failed, in the order they were attempted. */
  function ApplyErrors(st: State, desired: seq<Spec>, r: Refusals): seq<string> {
    RefusedOf(ToRemove(st.running, desired), r.remove) +
    RefusedOf(NamesOf(ToReplace(st.running, desired)), r.credential + r.replace) +
    RefusedOf(NamesOf(ToAdd(st.running, desired)), r.credential + r.add)
  }

  // --- the sweep ---

  /** What the reconciler knows of an application: whether it has planned, and
      the releases its last plan declared. */
  datatype Status = Status(planned: bool, releases: seq<string>)

  function Unplanned(running: seq<Spec>, status: string -> Status): seq<string> {
    if running == [] then []
    else
      var last := running[|running| - 1];
      Unplanned(running[..|running| - 1], status) + if status(last.name).planned then [] else [last.name]
  }

  function JoinedAll(s: seq<string>, xs: seq<string>): seq<string> {
    if xs == [] then s else Joined(JoinedAll(s, xs[..|xs| - 1]), xs[|xs| - 1])
  }

  function DeclaredBy(running: seq<Spec>, status: string -> Status): seq<string> {
    if running == [] then []
    else JoinedAll(DeclaredBy(running[..|running| - 1], status), status(running[|running| - 1].name).releases)
  }

  /** Everything one pass meets. `load` is the set the file declares, None for a
      load that failed; `loadedBefore` whether any load ever succeeded. */
  datatype Input = Input(
    load: Option<seq<Spec>>,
    loadedBefore: bool,
    cancelled: bool,
    refusals: Refusals,
    status: string -> Status,
    draining: seq<string>,
    swarm: Prune.Swarm,
    reclaimFails: bool)

  /** How the deployment is set up: whether it prunes, and as which controller. */
  datatype Setup = Setup(prunes: bool, controller: string)

  function KeepOf(setup: Setup, desired: seq<Spec>, running: seq<Spec>, status: string -> Status): Prune.Keep {
    Prune.Keep(NamesOf(desired), DeclaredBy(running, status), setup.controller)
  }

  function RecordPruned(st: State, names: seq<string>): State {
    if names == [] then st
    else
      var before := RecordPruned(st, names[..|names| - 1]);
      var name := names[|names| - 1];
      before.(orphaned := Without(before.orphaned, name), pruned := Joined(before.pruned, name))
  }

  /** The gates in the order they are asked. */
  datatype Gate = Off | Held(waiting: seq<string>) | Unlisted | Sweep(keep: Prune.Keep)

  function GateOf(setup: Setup, st: State, desired: seq<Spec>, input: Input): Gate {
    var keep := KeepOf(setup, desired, st.running, input.status);
    if !setup.prunes then Off
    else if Unplanned(st.running, input.status) != [] then Held(Unplanned(st.running, input.status))
    else if input.draining != [] then Held(input.draining)
    else if desired == [] && !st.emptyBefore then
      if input.swarm.listing.None? then Unlisted
      else Held(Prune.DepartedNames(input.swarm.listing.value, keep))
    else Sweep(keep)
  }

  function AfterPrune(setup: Setup, st: State, desired: seq<Spec>, input: Input): (State, bool) {
    var counted := if setup.prunes then st.(emptyBefore := desired == []) else st;
    match GateOf(setup, st, desired, input)
    case Off => (counted, false)
    case Held(waiting) => (counted.(heldBy := waiting), false)
    case Unlisted => (counted, true)
    case Sweep(keep) =>
      var report := Prune.SweepOf(keep, input.swarm);
      (RecordPruned(counted.(heldBy := []), report.pruned), report.failed)
  }

  function Recorded(st: State, trouble: Trouble, stale: bool, cancelled: bool): State {
    if cancelled && trouble != NO_TROUBLE then st.(stale := stale)
    else st.(stale := stale, lastErr := trouble)
  }

  predicate Reaches(st: State, input: Input) {
    input.load.Some? && ApplyErrors(st, input.load.value, input.refusals) == []
  }

  /** Once. */
  function After(setup: Setup, st: State, input: Input): State {
    if input.load.None? then
      Recorded(st, NO_TROUBLE.(load := true), input.loadedBefore, input.cancelled)
    else
      var desired := input.load.value;
      var applied := AfterApply(st, desired, input.refusals);
      var errors := ApplyErrors(st, desired, input.refusals);
      var (swept, failed) := if errors == [] then AfterPrune(setup, applied, desired, input) else (applied, false);
      Recorded(swept, Trouble(false, errors, failed, input.reclaimFails), false, input.cancelled)
  }

  /** What a pass tries to delete. */
  function Attempted(setup: Setup, st: State, input: Input): seq<string> {
    if !Reaches(st, input) then []
    else
      var gate := GateOf(setup, AfterApply(st, input.load.value, input.refusals), input.load.value, input);
      if gate.Sweep? then Prune.SweepOf(gate.keep, input.swarm).attempted else []
  }

  // --- convergence ---

  lemma {:induction false} LookupDropped(running: seq<Spec>, name: string, n: string)
    ensures Lookup(Drop(running, name), n) == if n == name then None else Lookup(running, n)
    decreases |running|
  {
    if running != [] {
      var k := |running| - 1;
      LookupDropped(running[..k], name, n);
      LookupAdded(Drop(running[..k], name), running[k], n);
      assert running[k].name == name ==> Drop(running, name) == Drop(running[..k], name);
    }
  }

  lemma {:induction false} LookupPut(running: seq<Spec>, spec: Spec, n: string)
    ensures Lookup(Put(running, spec), n) ==
            if n == spec.name && Lookup(running, n).Some? then Some(spec) else Lookup(running, n)
    decreases |running|
  {
    if running != [] {
      var k := |running| - 1;
      LookupPut(running[..k], spec, n);
      assert Put(running, spec)[..k] == Put(running[..k], spec);
    }
  }

  lemma LookupAdded(running: seq<Spec>, spec: Spec, n: string)
    ensures Lookup(running + [spec], n) == if n == spec.name then Some(spec) else Lookup(running, n)
  {
  }

  lemma {:induction false} LookupMembers(specs: seq<Spec>, n: string)
    ensures Lookup(specs, n).Some? <==> n in NamesOf(specs)
    ensures Lookup(specs, n).Some? ==> Lookup(specs, n).value in specs && Lookup(specs, n).value.name == n
    decreases |specs|
  {
    if specs != [] {
      var k := |specs| - 1;
      LookupMembers(specs[..k], n);
      assert specs == specs[..k] + [specs[k]];
      assert NamesOf(specs) == NamesOf(specs[..k]) + [specs[k].name];
    }
  }

  lemma {:induction false} LookupAfterRemoves(st: State, names: seq<string>, refused: set<string>, n: string)
    ensures Lookup(AfterRemoves(st, names, refused).running, n) ==
            if n in names && n !in refused then None else Lookup(st.running, n)
    decreases |names|
  {
    if names != [] {
      var k := |names| - 1;
      LookupAfterRemoves(st, names[..k], refused, n);
      assert names == names[..k] + [names[k]];
      LookupDropped(AfterRemoves(st, names[..k], refused).running, names[k], n);
      hide Lookup, Drop;
    }
  }

  lemma {:induction false} LookupAfterReplaces(st: State, specs: seq<Spec>, refused: set<string>, n: string)
    ensures Lookup(AfterReplaces(st, specs, refused).running, n) ==
            if n !in refused && Lookup(specs, n).Some? && Lookup(st.running, n).Some? then Lookup(specs, n)
            else Lookup(st.running, n)
    decreases |specs|
  {
    if specs != [] {
      var k := |specs| - 1;
      LookupAfterReplaces(st, specs[..k], refused, n);
      LookupPut(AfterReplaces(st, specs[..k], refused).running, specs[k], n);
      LookupAdded(specs[..k], specs[k], n);
      assert specs == specs[..k] + [specs[k]];
      hide Lookup, Put;
    }
  }

  lemma {:induction false} LookupAfterAdds(st: State, specs: seq<Spec>, refused: set<string>, n: string)
    ensures Lookup(AfterAdds(st, specs, refused).running, n) ==
            if n !in refused && Lookup(specs, n).Some? then Lookup(specs, n) else Lookup(st.running, n)
    decreases |specs|
  {
    if specs != [] {
      var k := |specs| - 1;
      LookupAfterAdds(st, specs[..k], refused, n);
      LookupAdded(AfterAdds(st, specs[..k], refused).running, specs[k], n);
      LookupAdded(specs[..k], specs[k], n);
      assert specs == specs[..k] + [specs[k]];
      hide Lookup;
    }
  }

  lemma LastNameIsNew(desired: seq<Spec>)
    requires desired != [] && Distinct(NamesOf(desired))
    ensures Distinct(NamesOf(desired[..|desired| - 1]))
    ensures Lookup(desired[..|desired| - 1], desired[|desired| - 1].name).None?
  {
    var k := |desired| - 1;
    assert NamesOf(desired)[..k] == NamesOf(desired[..k]);
    LookupMembers(desired[..k], desired[k].name);
    assert NamesOf(desired)[k] == desired[k].name;
    assert desired[k].name !in NamesOf(desired)[..k];
  }

  lemma {:induction false} AddsMembers(running: seq<Spec>, desired: seq<Spec>, n: string)
    requires Distinct(NamesOf(desired))
    ensures Lookup(ToAdd(running, desired), n) == if Lookup(running, n).None? then Lookup(desired, n) else None
    decreases |desired|
  {
    if desired != [] {
      var k := |desired| - 1;
      LastNameIsNew(desired);
      AddsMembers(running, desired[..k], n);
      var rest := ToAdd(running, desired[..k]);
      LookupAdded(rest, desired[k], n);
      assert rest + [] == rest;
    }
  }

  lemma {:induction false} ReplacesMembers(running: seq<Spec>, desired: seq<Spec>, n: string)
    requires Distinct(NamesOf(desired))
    ensures Lookup(ToReplace(running, desired), n) ==
            if Lookup(running, n).Some? && Lookup(running, n) != Lookup(desired, n) then Lookup(desired, n) else None
    decreases |desired|
  {
    if desired != [] {
      var k := |desired| - 1;
      LastNameIsNew(desired);
      ReplacesMembers(running, desired[..k], n);
      var rest := ToReplace(running, desired[..k]);
      LookupAdded(rest, desired[k], n);
      assert rest + [] == rest;
    }
  }

  lemma {:induction false} RemovesMembers(running: seq<Spec>, desired: seq<Spec>, n: string)
    ensures n in ToRemove(running, desired) <==> Lookup(running, n).Some? && Lookup(desired, n).None?
    decreases |running|
  {
    if running != [] {
      RemovesMembers(running[..|running| - 1], desired, n);
    }
  }

  lemma {:induction false} RefusedMembers(names: seq<string>, refused: set<string>)
    ensures forall n :: n in RefusedOf(names, refused) <==> n in names && n in refused
    decreases |names|
  {
    if names != [] {
      var k := |names| - 1;
      RefusedMembers(names[..k], refused);
      assert names == names[..k] + [names[k]];
    }
  }

  /** Whether the change an application needs fails in a pass. */
  predicate Fails(st: State, desired: seq<Spec>, r: Refusals, n: string) {
    var was, now := Lookup(st.running, n), Lookup(desired, n);
    if now.None? then was.Some? && n in r.remove
    else if was.None? then n in r.credential + r.add
    else was != now && n in r.credential + r.replace
  }

  /** The errors name exactly the applications whose change fails. */
  lemma ErrorsAreFailures(st: State, desired: seq<Spec>, r: Refusals, n: string)
    requires Distinct(NamesOf(desired))
    ensures n in ApplyErrors(st, desired, r) <==> Fails(st, desired, r, n)
  {
    RemovesMembers(st.running, desired, n);
    AddsMembers(st.running, desired, n);
    ReplacesMembers(st.running, desired, n);
    LookupMembers(ToAdd(st.running, desired), n);
    LookupMembers(ToReplace(st.running, desired), n);
    RefusedMembers(ToRemove(st.running, desired), r.remove);
    RefusedMembers(NamesOf(ToReplace(st.running, desired)), r.credential + r.replace);
    RefusedMembers(NamesOf(ToAdd(st.running, desired)), r.credential + r.add);
    hide Lookup, NamesOf, ToAdd, ToReplace, ToRemove, RefusedOf;
  }

  /** After apply every application whose change failed is as it was, and every
      other is as the set declares it. */
  lemma ApplySettles(st: State, desired: seq<Spec>, r: Refusals, n: string)
    requires Distinct(NamesOf(desired))
    ensures Lookup(AfterApply(st, desired, r).running, n) ==
            Lookup(if n in ApplyErrors(st, desired, r) then st.running else desired, n)
  {
    var removes, changes, adds := ToRemove(st.running, desired), ToReplace(st.running, desired), ToAdd(st.running, desired);
    var st1 := AfterRemoves(st, removes, r.remove);
    var st2 := AfterReplaces(st1, changes, r.credential + r.replace);
    ErrorsAreFailures(st, desired, r, n);
    RemovesMembers(st.running, desired, n);
    AddsMembers(st.running, desired, n);
    ReplacesMembers(st.running, desired, n);
    LookupAfterRemoves(st, removes, r.remove, n);
    LookupAfterReplaces(st1, changes, r.credential + r.replace, n);
    LookupAfterAdds(st2, adds, r.credential + r.add, n);
    hide Lookup, NamesOf, ToAdd, ToReplace, ToRemove, ApplyErrors, AfterRemoves, AfterReplaces, AfterAdds;
  }

  /** Diffing again after a pass finds exactly the changes that failed: whatever
      succeeded is not attempted twice, and nothing that failed is forgotten. */
  lemma RediffIsTheFailures(st: State, desired: seq<Spec>, r: Refusals, n: string)
    requires Distinct(NamesOf(desired))
    ensures var after := AfterApply(st, desired, r).running;
            n in ApplyErrors(st, desired, r) <==>
            n in ToRemove(after, desired) || n in NamesOf(ToReplace(after, desired)) || n in NamesOf(ToAdd(after, desired))
  {
    var after := AfterApply(st, desired, r).running;
    ErrorsAreFailures(st, desired, r, n);
    ApplySettles(st, desired, r, n);
    RemovesMembers(after, desired, n);
    AddsMembers(after, desired, n);
    ReplacesMembers(after, desired, n);
    LookupMembers(ToReplace(after, desired), n);
    LookupMembers(ToAdd(after, desired), n);
    LookupMembers(desired, n);
    hide Lookup, NamesOf, ToAdd, ToReplace, ToRemove, ApplyErrors, AfterApply;
  }
}
