/** The loader of the app set and the loop that drives the running set to it
    (appset/appset.go, appset/loop.go). */
module AppSet {
  import opened Text
  import opened Config
  import opened Passes
  import Prune
  import Reclaim

  /** A document as it was read: its bytes and the commit they came from. */
  datatype Doc = Doc(data: string, revision: string)

  /** The last set accepted among the documents read, in reading order. */
  function LastGood(readings: seq<Option<Doc>>, decode: string -> Option<Document>, rest: string -> bool): Option<seq<Spec>> {
    if readings == [] then None
    else
      var last := AcceptedDoc(readings[|readings| - 1], decode, rest);
      if last.Some? then last else LastGood(readings[..|readings| - 1], decode, rest)
  }

  function AcceptedDoc(doc: Option<Doc>, decode: string -> Option<Document>, rest: string -> bool): Option<seq<Spec>> {
    if doc.None? then None else Accepted(decode(doc.value.data), rest)
  }

  class Loader {
    const decode: string -> Option<Document>
    const rest: string -> bool
    var current: Option<seq<Spec>>
    /** The document the current set came from; its digest stands for it, two
        documents with one digest being one document. */
    var digest: string
    var loaded: bool
    var revision: string
    ghost var readings: seq<Option<Doc>>

    constructor (decode: string -> Option<Document>, rest: string -> bool)
      ensures Valid() && current.None? && readings == []
      ensures this.decode == decode && this.rest == rest
    {
      this.decode, this.rest := decode, rest;
      current, digest, loaded, revision, readings := None, "", false, "", [];
    }

    ghost predicate Valid()
      reads this
    {
      current == LastGood(readings, decode, rest) &&
      (loaded <==> current.Some?) && (loaded ==> current == Accepted(decode(digest), rest))
    }

    /** Load: the set the document declares, whether or not it had to be parsed
        again, and no set at all on a failure. The current set is the last one
        that was accepted, however many failures came after it. */
    method Load(doc: Option<Doc>) returns (file: Option<seq<Spec>>, changed: bool)
      requires Valid()
      modifies this
      ensures Valid() && readings == old(readings) + [doc]
      ensures file == AcceptedDoc(doc, decode, rest)
      ensures current == if file.Some? then file else old(current)
      ensures changed <==> file.Some? && !(old(loaded) && old(digest) == doc.value.data)
      ensures revision == if changed then doc.value.revision else old(revision)
    {
      readings := readings + [doc];
      assert readings[..|readings| - 1] == old(readings);
      if doc.None? { return None, false; }
      if loaded && doc.value.data == digest { return current, false; }
      var parsed := Parse(decode(doc.value.data), rest);
      if parsed.Refused? { return None, false; }
      current, digest, loaded, revision := Some(parsed.apps), doc.value.data, true, doc.value.revision;
      return current, true;
    }
  }

  /** Whatever is loaded, its application names are unique, which the diff and
      the sweep rely on. */
  lemma LoadsAreUnique(doc: Option<Doc>, decode: string -> Option<Document>, rest: string -> bool)
    requires AcceptedDoc(doc, decode, rest).Some?
    ensures Distinct(NamesOf(AcceptedDoc(doc, decode, rest).value))
  {
  }

  /** The running set. Each call changes one application or, refused, nothing. */
  class Reconciler {
    var running: seq<Spec>

    constructor (running: seq<Spec>)
      ensures this.running == running
    {
      this.running := running;
    }

    method Remove(name: string, refused: set<string>) returns (ok: bool)
      modifies this
      ensures ok <==> name !in refused
      ensures running == if ok then Drop(old(running), name) else old(running)
    {
      if name in refused { return false; }
      running := Drop(running, name);
      return true;
    }

    method Replace(spec: Spec, refused: set<string>) returns (ok: bool)
      modifies this
      ensures ok <==> spec.name !in refused
      ensures running == if ok then Put(old(running), spec) else old(running)
    {
      if spec.name in refused { return false; }
      running := Put(running, spec);
      return true;
    }

    method Add(spec: Spec, refused: set<string>) returns (ok: bool)
      modifies this
      ensures ok <==> spec.name !in refused
      ensures running == if ok then old(running) + [spec] else old(running)
    {
      if spec.name in refused { return false; }
      running := running + [spec];
      return true;
    }
  }

  /** diff against what is running, not against the last file. */
  method Diff(running: seq<Spec>, desired: seq<Spec>) returns (add: seq<Spec>, change: seq<Spec>, remove: seq<string>)
    ensures add == ToAdd(running, desired)
    ensures change == ToReplace(running, desired)
    ensures remove == ToRemove(running, desired)
  {
    var current := Index(running);
    var wanted := Index(desired);
    add, change, remove := [], [], [];
    for i := 0 to |desired|
      invariant add == ToAdd(running, desired[..i]) && change == ToReplace(running, desired[..i])
    {
      var spec := desired[i];
      assert desired[..i + 1][..i] == desired[..i];
      if spec.name !in current {
        add := add + [spec];
      } else if current[spec.name] != spec {
        change := change + [spec];
      }
    }
    assert desired[..|desired|] == desired;
    for i := 0 to |running|
      invariant remove == ToRemove(running[..i], desired)
    {
      assert running[..i + 1][..i] == running[..i];
      if running[i].name !in wanted { remove := remove + [running[i].name]; }
    }
    assert running[..|running|] == running;
  }

  method Index(specs: seq<Spec>) returns (m: map<string, Spec>)
    ensures forall n :: (if n in m then Some(m[n]) else None) == Lookup(specs, n)
  {
    m := map[];
    for i := 0 to |specs|
      invariant forall n :: (if n in m then Some(m[n]) else None) == Lookup(specs[..i], n)
    {
      assert specs[..i + 1][..i] == specs[..i];
      m := m[specs[i].name := specs[i]];
    }
    assert specs[..|specs|] == specs;
  }

  /** unreconciled. */
  method Unreconciled(running: seq<Spec>, status: string -> Status) returns (held: seq<string>)
    ensures held == Unplanned(running, status)
  {
    held := [];
    for i := 0 to |running|
      invariant held == Unplanned(running[..i], status)
    {
      assert running[..i + 1][..i] == running[..i];
      if !status(running[i].name).planned { held := held + [running[i].name]; }
    }
    assert running[..|running|] == running;
  }

  /** declared. */
  method Declared(running: seq<Spec>, status: string -> Status) returns (out: seq<string>)
    ensures out == DeclaredBy(running, status)
  {
    out := [];
    var seen: set<string> := {};
    for i := 0 to |running|
      invariant out == DeclaredBy(running[..i], status)
      invariant forall n :: n in seen <==> n in out
    {
      assert running[..i + 1][..i] == running[..i];
      ghost var before := out;
      var releases := status(running[i].name).releases;
      for k := 0 to |releases|
        invariant out == JoinedAll(before, releases[..k])
        invariant forall n :: n in seen <==> n in out
      {
        assert releases[..k + 1][..k] == releases[..k];
        if releases[k] !in seen {
          seen := seen + {releases[k]};
          out := out + [releases[k]];
        }
      }
      assert releases[..|releases|] == releases;
    }
    assert running[..|running|] == running;
  }

  class Loop {
    const src: Loader
    const rec: Reconciler
    const setup: Setup
    const reclaimer: Reclaim.Sweeper?
    var orphaned: seq<string>
    var pruned: seq<string>
    var heldBy: seq<string>
    var emptyBefore: bool
    var stale: bool
    var lastErr: Trouble

    constructor (src: Loader, rec: Reconciler, setup: Setup, reclaimer: Reclaim.Sweeper?)
      ensures this.src == src && this.rec == rec && this.setup == setup && this.reclaimer == reclaimer
      ensures StateOf() == State(rec.running, [], [], [], false, false, NO_TROUBLE)
    {
      this.src, this.rec, this.setup, this.reclaimer := src, rec, setup, reclaimer;
      orphaned, pruned, heldBy, emptyBefore, stale, lastErr := [], [], [], false, false, NO_TROUBLE;
    }

    ghost function StateOf(): State
      reads this, rec
    {
      State(rec.running, orphaned, pruned, heldBy, emptyBefore, stale, lastErr)
    }

    method Orphan(name: string)
      modifies this`orphaned
      ensures orphaned == Joined(old(orphaned), name)
    {
      if name !in orphaned { orphaned := orphaned + [name]; }
    }

    method Adopt(name: string)
      modifies this`orphaned, this`pruned
      ensures orphaned == Without(old(orphaned), name) && pruned == Without(old(pruned), name)
    {
      orphaned := Without(orphaned, name);
      pruned := Without(pruned, name);
    }

    method RemoveAll(names: seq<string>, refused: set<string>) returns (errs: seq<string>)
      modifies this`orphaned, rec
      ensures StateOf() == AfterRemoves(old(StateOf()), names, refused)
      ensures errs == RefusedOf(names, refused)
    {
      errs := [];
      hide Drop, Joined;
      for i := 0 to |names|
        invariant StateOf() == AfterRemoves(old(StateOf()), names[..i], refused)
        invariant errs == RefusedOf(names[..i], refused)
      {
        assert names[..i + 1][..i] == names[..i];
        var ok := rec.Remove(names[i], refused);
        if !ok {
          errs := errs + [names[i]];
          continue;
        }
        Orphan(names[i]);
      }
      assert names[..|names|] == names;
    }

    method ReplaceAll(specs: seq<Spec>, r: Refusals) returns (errs: seq<string>)
      modifies rec
      ensures StateOf() == AfterReplaces(old(StateOf()), specs, r.credential + r.replace)
      ensures errs == RefusedOf(NamesOf(specs), r.credential + r.replace)
    {
      errs := [];
      hide Put;
      for i := 0 to |specs|
        invariant StateOf() == AfterReplaces(old(StateOf()), specs[..i], r.credential + r.replace)
        invariant errs == RefusedOf(NamesOf(specs[..i]), r.credential + r.replace)
      {
        assert specs[..i + 1][..i] == specs[..i];
        assert NamesOf(specs[..i + 1])[..i] == NamesOf(specs[..i]);
        if specs[i].name in r.credential {
          errs := errs + [specs[i].name];
          continue;
        }
        var ok := rec.Replace(specs[i], r.replace);
        if !ok { errs := errs + [specs[i].name]; }
      }
      assert specs[..|specs|] == specs;
    }

    method AddAll(specs: seq<Spec>, r: Refusals) returns (errs: seq<string>)
      modifies this`orphaned, this`pruned, rec
      ensures StateOf() == AfterAdds(old(StateOf()), specs, r.credential + r.add)
      ensures errs == RefusedOf(NamesOf(specs), r.credential + r.add)
    {
      errs := [];
      for i := 0 to |specs|
        invariant StateOf() == AfterAdds(old(StateOf()), specs[..i], r.credential + r.add)
        invariant errs == RefusedOf(NamesOf(specs[..i]), r.credential + r.add)
      {
        assert specs[..i + 1][..i] == specs[..i];
        assert NamesOf(specs[..i + 1])[..i] == NamesOf(specs[..i]);
        if specs[i].name in r.credential {
          errs := errs + [specs[i].name];
          continue;
        }
        var ok := rec.Add(specs[i], r.add);
        if !ok {
          errs := errs + [specs[i].name];
          continue;
        }
        Adopt(specs[i].name);
      }
      assert specs[..|specs|] == specs;
    }

    /** apply: removals, then replacements, then additions, every one attempted. */
    method Apply(desired: seq<Spec>, r: Refusals) returns (errs: seq<string>)
      modifies this`orphaned, this`pruned, rec
      ensures StateOf() == AfterApply(old(StateOf()), desired, r)
      ensures errs == ApplyErrors(old(StateOf()), desired, r)
    {
      hide ToAdd, ToReplace, ToRemove, AfterRemoves, AfterReplaces, AfterAdds, RefusedOf, NamesOf;
      var add, change, remove := Diff(rec.running, desired);
      var a := RemoveAll(remove, r.remove);
      var b := ReplaceAll(change, r);
      var c := AddAll(add, r);
      errs := a + b + c;
    }

    method NotePruned(names: seq<string>)
      modifies this`orphaned, this`pruned
      ensures StateOf() == RecordPruned(old(StateOf()), names)
    {
      if |names| == 0 { return; }
      for i := 0 to |names|
        invariant StateOf() == RecordPruned(old(StateOf()), names[..i])
      {
        assert names[..i + 1][..i] == names[..i];
        orphaned := Without(orphaned, names[i]);
        if names[i] !in pruned { pruned := pruned + [names[i]]; }
      }
      assert names[..|names|] == names;
    }

    /** pruneDeparted. The empty count moves before the gates are asked. */
    method PruneDeparted(desired: seq<Spec>, input: Input) returns (failed: bool)
      modifies this`orphaned, this`pruned, this`heldBy, this`emptyBefore
      ensures (StateOf(), failed) == AfterPrune(setup, old(StateOf()), desired, input)
    {
      hide Unplanned, DeclaredBy, Prune.Groups, Prune.SweepOf, Prune.DepartedNames, RecordPruned;
      if !setup.prunes { return false; }
      var confirmed := emptyBefore;
      emptyBefore := |desired| == 0;
      var held := Unreconciled(rec.running, input.status);
      if |held| > 0 {
        heldBy := held;
        return false;
      }
      if |input.draining| > 0 {
        heldBy := input.draining;
        return false;
      }
      var declared := Declared(rec.running, input.status);
      var keep := Prune.Keep(NamesOf(desired), declared, setup.controller);
      if |desired| == 0 && !confirmed {
        if input.swarm.listing.None? { return true; }
        var departing := Prune.DepartedApps(input.swarm.listing.value, keep);
        heldBy := AppsOf(departing, input.swarm.listing.value, keep);
        return false;
      }
      heldBy := [];
      var report := Prune.Departed(keep, input.swarm);
      NotePruned(report.pruned);
      failed := report.failed;
    }

    /** The applications of the groups a sweep would empty, in order. */
    method AppsOf(groups: seq<Prune.Group>, listing: seq<Prune.Release>, keep: Prune.Keep) returns (names: seq<string>)
      requires groups == Prune.Groups(listing, keep)
      ensures names == Prune.DepartedNames(listing, keep)
    {
      names := [];
      for i := 0 to |groups|
        invariant names == Prune.DepartedNames(listing, keep)[..i]
      {
        names := names + [groups[i].app];
      }
    }

    method Record(trouble: Trouble, stale: bool, cancelled: bool)
      modifies this`stale, this`lastErr
      ensures StateOf() == Recorded(old(StateOf()), trouble, stale, cancelled)
    {
      this.stale := stale;
      if cancelled && trouble != NO_TROUBLE { return; }
      lastErr := trouble;
    }

    /** reclaimDeparted: keyed on what runs, not on what the file declares, so that
        an application whose removal failed keeps its caches. */
    method ReclaimDeparted(readings: seq<Reclaim.Reading>, stuck: set<Reclaim.Place>) returns (failed: bool)
      requires CanReclaim(readings)
      modifies reclaimer
      ensures CanReclaim(readings)
      ensures failed <==> reclaimer != null && Reclaim.Fails(reclaimer.roots, old(reclaimer.absent), MeetingOf(readings, stuck))
      ensures reclaimer != null ==> reclaimer.met == old(reclaimer.met) + [MeetingOf(readings, stuck)]
    {
      if reclaimer == null { return false; }
      var removed;
      removed, failed := reclaimer.Sweep(Reclaim.Meeting(NamesOf(rec.running), readings, stuck));
    }

    /** What the reclaiming sweep meets: the names that run keep their places. */
    ghost function MeetingOf(readings: seq<Reclaim.Reading>, stuck: set<Reclaim.Place>): Reclaim.Meeting
      reads rec`running
    {
      Reclaim.Meeting(NamesOf(rec.running), readings, stuck)
    }

    ghost predicate CanReclaim(readings: seq<Reclaim.Reading>)
      reads reclaimer
    {
      reclaimer != null ==> reclaimer.Valid() && |readings| == |reclaimer.roots|
    }

    /** Once. Reads the set, applies it, sweeps behind a clean apply, reclaims
        behind a load and records the outcome, the reclaiming sweep's own failure
        included. A failed load changes nothing else. */
    method Once(doc: Option<Doc>, input: Input, readings: seq<Reclaim.Reading>, stuck: set<Reclaim.Place>)
      returns (ghost reclaimFailed: bool)
      requires src.Valid() && CanReclaim(readings) && input.loadedBefore == src.current.Some?
      requires input.load == AcceptedDoc(doc, src.decode, src.rest)
      modifies this, rec, src, reclaimer
      ensures src.Valid() && CanReclaim(readings)
      ensures StateOf() == After(setup, old(StateOf()), input.(reclaimFails := reclaimFailed))
      ensures reclaimFailed <==>
                (input.load.Some? && reclaimer != null &&
                 Reclaim.Fails(reclaimer.roots, old(reclaimer.absent), MeetingOf(readings, stuck)))
      ensures reclaimer != null && input.load.None? ==> reclaimer.met == old(reclaimer.met)
      ensures reclaimer != null && input.load.Some? ==>
                reclaimer.met == old(reclaimer.met) + [MeetingOf(readings, stuck)]
    {
      hide AfterApply, AfterPrune, ApplyErrors, AcceptedDoc, Loader.Valid, Reclaim.Sweeper.Valid, NamesOf;
      var file, changed := src.Load(doc);
      if file.None? {
        Record(NO_TROUBLE.(load := true), src.current.Some?, input.cancelled);
        return false;
      }
      var errs := Apply(file.value, input.refusals);
      var failed := false;
      if |errs| == 0 { failed := PruneDeparted(file.value, input); }
      var unclaimed := ReclaimDeparted(readings, stuck);
      reclaimFailed := unclaimed;
      PruneIgnoresReclaim(setup, input, unclaimed);
      Record(Trouble(false, errs, failed, unclaimed), false, input.cancelled);
    }
  }

  /** What a sweep does has nothing to do with how reclaiming ends. */
  lemma PruneIgnoresReclaim(setup: Setup, input: Input, failed: bool)
    ensures forall st, desired :: AfterPrune(setup, st, desired, input.(reclaimFails := failed)) == AfterPrune(setup, st, desired, input)
  {
  }

  /** The caches of a running application are never even candidates. */
  lemma RunningKeepsItsCaches(roots: seq<string>, m: Reclaim.Meeting, running: seq<Spec>, spec: Spec, root: string)
    requires |m.readings| == |roots| && m.keep == NamesOf(running) && spec in running
    ensures Reclaim.Place(root, spec.name) !in Reclaim.Candidates(roots, m)
  {
    var i :| 0 <= i < |running| && running[i] == spec;
    assert NamesOf(running)[i] == spec.name;
  }
}
