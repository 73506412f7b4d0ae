/** Reclaiming the cached directories of departed applications (reclaim/reclaim.go).

    A directory goes only once its name has been missing from two sweeps running. */
module Reclaim {

  datatype Entry = Entry(name: string, isDir: bool)

  /** What reading a root answers: no such directory, an error, or its entries. */
  datatype Reading = Missing | Unreadable | Entries(entries: seq<Entry>)

  /** A path one level under a root. */
  datatype Place = Place(root: string, name: string)

  /** What a sweep meets: the applications kept, each root's reading, and the
      removals that would fail. */
  datatype Meeting = Meeting(keep: seq<string>, readings: seq<Reading>, stuck: set<Place>)

  /** The directories of one root that no kept application owns. */
  function Unowned(root: string, reading: Reading, keep: seq<string>): set<Place> {
    if !reading.Entries? then {}
    else set e | e in reading.entries && e.isDir && e.name !in keep :: Place(root, e.name)
  }

  function Candidates(roots: seq<string>, m: Meeting): set<Place>
    requires |m.readings| == |roots|
  {
    set i, p | 0 <= i < |roots| && p in Unowned(roots[i], m.readings[i], m.keep) :: p
  }

  /** Whether a sweep is to report a failure: a root could not be read, or a place
      due for removal could not be removed. */
  predicate Fails(roots: seq<string>, absent: set<Place>, m: Meeting)
    requires |m.readings| == |roots|
  {
    Unreadable in m.readings || Candidates(roots, m) * absent * m.stuck != {}
  }

  class Sweeper {
    const roots: seq<string>
    /** The candidates of the previous sweep that it left standing. */
    var absent: set<Place>
    ghost var met: seq<Meeting>

    constructor (roots: seq<string>)
      ensures Valid() && this.roots == roots && met == []
    {
      this.roots, absent, met := roots, {}, [];
    }

    ghost predicate Valid()
      reads this
    {
      Run(roots, met) && absent == AbsentAfter(roots, met)
    }

    /** Sweep: removes the candidates that were absent last time as well, and
        remembers every candidate it did not remove. */
    method Sweep(m: Meeting) returns (removed: set<Place>, failed: bool)
      requires Valid() && |m.readings| == |roots|
      modifies this
      ensures Valid() && met == old(met) + [m] && removed == RemovedBy(roots, met)
      ensures absent == Candidates(roots, m) - removed
      ensures failed <==> Fails(roots, old(absent), m)
    {
      removed, failed := {}, false;
      var candidates: set<Place> := {};
      ghost var found: set<Place> := {};
      for i := 0 to |roots|
        invariant absent == old(absent) && met == old(met)
        invariant found == set k, p | 0 <= k < i && p in Unowned(roots[k], m.readings[k], m.keep) :: p
        invariant removed == found * absent - m.stuck && candidates == found - removed
        invariant failed <==> Unreadable in m.readings[..i] || found * absent * m.stuck != {}
      {
        var here, done, bad := SweepRoot(roots[i], m.readings[i], m.keep, m.stuck);
        ghost var unowned := Unowned(roots[i], m.readings[i], m.keep);
        hide Unowned;
        NextRoot(found, unowned, absent, m.stuck);
        found := found + unowned;
        removed, candidates := removed + done, candidates + here;
        failed := failed || bad;
        assert m.readings[..i + 1] == m.readings[..i] + [m.readings[i]];
      }
      assert m.readings[..|roots|] == m.readings;
      assert found == Candidates(roots, m);
      RunNext(roots, met, m);
      met, absent := met + [m], candidates;
    }

    /** One root's entries. */
    method SweepRoot(root: string, reading: Reading, keep: seq<string>, stuck: set<Place>)
      returns (candidates: set<Place>, removed: set<Place>, failed: bool)
      ensures removed == Unowned(root, reading, keep) * absent - stuck
      ensures candidates == Unowned(root, reading, keep) - removed
      ensures failed <==> reading == Unreadable || Unowned(root, reading, keep) * absent * stuck != {}
    {
      candidates, removed, failed := {}, {}, false;
      if reading == Missing { return; }
      if reading == Unreadable { return {}, {}, true; }
      var entries := reading.entries;
      ghost var found: set<Place> := {};
      for i := 0 to |entries|
        invariant found == set e | e in entries[..i] && e.isDir && e.name !in keep :: Place(root, e.name)
        invariant removed == found * absent - stuck && candidates == found - removed
        invariant failed <==> found * absent * stuck != {}
      {
        var entry := entries[i];
        assert entries[..i + 1] == entries[..i] + [entry];
        if !entry.isDir || entry.name in keep { continue; }
        var path := Place(root, entry.name);
        NextRoot(found, {path}, absent, stuck);
        found := found + {path};
        if path !in absent {
          candidates := candidates + {path};
        } else if path in stuck {
          failed := true;
          candidates := candidates + {path};
        } else {
          removed := removed + {path};
        }
      }
      assert entries[..|entries|] == entries;
    }
  }

  lemma RunNext(roots: seq<string>, ms: seq<Meeting>, m: Meeting)
    requires Run(roots, ms) && |m.readings| == |roots|
    ensures Run(roots, ms + [m])
    ensures RemovedBy(roots, ms + [m]) == Candidates(roots, m) * AbsentAfter(roots, ms) - m.stuck
    ensures AbsentAfter(roots, ms + [m]) == Candidates(roots, m) - RemovedBy(roots, ms + [m])
  {
  }

  lemma NextRoot(met: set<Place>, more: set<Place>, absent: set<Place>, stuck: set<Place>)
    ensures (met + more) * absent - stuck == (met * absent - stuck) + (more * absent - stuck)
    ensures (met + more) - ((met + more) * absent - stuck) == (met - (met * absent - stuck)) + (more - (more * absent - stuck))
    ensures (met + more) * absent * stuck == met * absent * stuck + more * absent * stuck
  {
  }

  // --- over runs ---

  ghost predicate Run(roots: seq<string>, ms: seq<Meeting>) {
    forall i :: 0 <= i < |ms| ==> |ms[i].readings| == |roots|
  }

  /** The state a run of sweeps leaves, from a fresh sweeper. */
  function AbsentAfter(roots: seq<string>, ms: seq<Meeting>): set<Place>
    requires Run(roots, ms)
    decreases |ms|, 1
  {
    if ms == [] then {}
    else
      var last := ms[|ms| - 1];
      Candidates(roots, last) - RemovedBy(roots, ms)
  }

  /** What the last sweep of a run removes. */
  function RemovedBy(roots: seq<string>, ms: seq<Meeting>): set<Place>
    requires Run(roots, ms) && ms != []
    decreases |ms|, 0
  {
    var last := ms[|ms| - 1];
    Candidates(roots, last) * AbsentAfter(roots, ms[..|ms| - 1]) - last.stuck
  }

  /** How many sweeps running, up to the last, a place was a candidate without
      having been removed in between. */
  function Missed(roots: seq<string>, ms: seq<Meeting>, p: Place): nat
    requires Run(roots, ms)
  {
    if ms == [] || p !in Candidates(roots, ms[|ms| - 1]) then 0
    else if |ms| > 1 && p in RemovedBy(roots, ms[..|ms| - 1]) then 1
    else 1 + Missed(roots, ms[..|ms| - 1], p)
  }

  /** The grace period, exactly: a sweep removes a directory if and only if it
      can be removed and its name has been missing at least twice running. Its
      name coming back, its root going unreadable, or its having been removed
      starts the count again. */
  lemma GraceIsTwoSweeps(roots: seq<string>, ms: seq<Meeting>, p: Place)
    requires Run(roots, ms) && ms != []
    ensures p in RemovedBy(roots, ms) <==> Missed(roots, ms, p) >= 2 && p !in ms[|ms| - 1].stuck
  {
  }

  /** Nothing is removed unless both the sweep and the one before it found it, as
      a directory of no kept application. */
  lemma RemovedWasSeenTwice(roots: seq<string>, ms: seq<Meeting>, p: Place)
    requires Run(roots, ms) && ms != [] && p in RemovedBy(roots, ms)
    ensures |ms| >= 2 && p in Candidates(roots, ms[|ms| - 1]) && p in Candidates(roots, ms[|ms| - 2])
  {
  }

  /** A directory that stays unowned and can be removed is gone by the second
      sweep that meets it. */
  lemma GoneBySecondSweep(roots: seq<string>, ms: seq<Meeting>, p: Place)
    requires Run(roots, ms) && |ms| >= 2
    requires p in Candidates(roots, ms[|ms| - 1]) && p in Candidates(roots, ms[|ms| - 2])
    requires p !in ms[|ms| - 1].stuck
    ensures p in RemovedBy(roots, ms) || p in RemovedBy(roots, ms[..|ms| - 1])
  {
  }
}
