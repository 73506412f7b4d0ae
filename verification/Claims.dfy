/** Which resources dropped from a release may be deleted (prune/prune.go).

    A resource of the release that its manifest no longer declares is a candidate.
    It is deleted only when some recorded revision of ours declared it. */
module Claims {
  import opened Text

  /** The names of a list that another does, or does not, hold. */
  function Within(names: seq<string>, other: seq<string>, held: bool): seq<string> {
    if names == [] then []
    else
      var last := names[|names| - 1];
      Within(names[..|names| - 1], other, held) + if (last in other) == held then [last] else []
  }

  method Undeclared(running: seq<string>, declared: seq<string>) returns (out: seq<string>)
    ensures Ascending(out) && Permuted(out, Within(running, declared, false))
  {
    out := [];
    if |running| == 0 { return; }
    var keep := NameSet(declared);
    for i := 0 to |running|
      invariant out == Within(running[..i], declared, false)
    {
      assert running[..i + 1][..i] == running[..i];
      if running[i] !in keep { out := out + [running[i]]; }
    }
    assert running[..|running|] == running;
    SortedAscending(out);
    out := Sorted(out);
  }

  method NameSet(names: seq<string>) returns (s: set<string>)
    ensures forall n :: n in s <==> n in names
  {
    s := {};
    for i := 0 to |names|
      invariant forall n :: n in s <==> n in names[..i]
    {
      s := s + {names[i]};
    }
  }

  method Claim(candidates: seq<string>, declared: seq<string>) returns (claimed: seq<string>, rest: seq<string>)
    ensures claimed == Within(candidates, declared, true) && rest == Within(candidates, declared, false)
  {
    claimed, rest := [], [];
    if |candidates| == 0 { return; }
    var known := NameSet(declared);
    for i := 0 to |candidates|
      invariant claimed == Within(candidates[..i], declared, true) && rest == Within(candidates[..i], declared, false)
    {
      assert candidates[..i + 1][..i] == candidates[..i];
      if candidates[i] in known {
        claimed := claimed + [candidates[i]];
      } else {
        rest := rest + [candidates[i]];
      }
    }
    assert candidates[..|candidates|] == candidates;
  }

  /** Revisions asked one at a time, each about what is still unaccounted for. */
  function WalkRest(candidates: seq<string>, revisions: seq<seq<string>>): seq<string> {
    if revisions == [] then candidates
    else Within(WalkRest(candidates, revisions[..|revisions| - 1]), revisions[|revisions| - 1], false)
  }

  function WalkClaimed(candidates: seq<string>, revisions: seq<seq<string>>): seq<string> {
    if revisions == [] then []
    else
      var before := revisions[..|revisions| - 1];
      WalkClaimed(candidates, before) + Within(WalkRest(candidates, before), revisions[|revisions| - 1], true)
  }

  function AllOf(revisions: seq<seq<string>>): seq<string> {
    if revisions == [] then [] else AllOf(revisions[..|revisions| - 1]) + revisions[|revisions| - 1]
  }

  lemma {:induction false} WithinCounts(names: seq<string>, other: seq<string>, held: bool, n: string)
    ensures multiset(Within(names, other, held))[n] == if (n in other) == held then multiset(names)[n] else 0
    decreases |names|
  {
    if names != [] {
      var k := |names| - 1;
      WithinCounts(names[..k], other, held, n);
      assert names == names[..k] + [names[k]];
    }
  }

  lemma WithinSplits(names: seq<string>, other: seq<string>)
    ensures multiset(Within(names, other, true)) + multiset(Within(names, other, false)) == multiset(names)
  {
    forall n ensures (multiset(Within(names, other, true)) + multiset(Within(names, other, false)))[n] == multiset(names)[n] {
      WithinCounts(names, other, true, n);
      WithinCounts(names, other, false, n);
    }
  }

  lemma {:induction false} WithinTwice(names: seq<string>, a: seq<string>, b: seq<string>)
    ensures Within(Within(names, a, false), b, false) == Within(names, a + b, false)
    decreases |names|
  {
    if names != [] {
      var k := |names| - 1;
      var before := Within(names[..k], a, false);
      WithinTwice(names[..k], a, b);
      assert (before + [names[k]])[..|before|] == before;
      assert before + [] == before;
    }
  }

  /** Asking the revisions one at a time, newest first, leaves unaccounted for
      exactly what all of them together would, in the same order, and loses
      nothing on the way: every candidate ends up claimed or left, once. */
  lemma {:induction false} WalkIsUnion(candidates: seq<string>, revisions: seq<seq<string>>)
    ensures WalkRest(candidates, revisions) == Within(candidates, AllOf(revisions), false)
    ensures multiset(WalkClaimed(candidates, revisions)) + multiset(WalkRest(candidates, revisions)) == multiset(candidates)
    decreases |revisions|
  {
    if revisions == [] {
      KeepsAll(candidates);
    } else {
      var k := |revisions| - 1;
      WalkIsUnion(candidates, revisions[..k]);
      WithinTwice(candidates, AllOf(revisions[..k]), revisions[k]);
      WithinSplits(WalkRest(candidates, revisions[..k]), revisions[k]);
    }
  }

  lemma {:induction false} KeepsAll(names: seq<string>)
    ensures Within(names, [], false) == names
    decreases |names|
  {
    if names != [] { KeepsAll(names[..|names| - 1]); }
  }

  /** So a walk may stop once nothing is left: the older revisions claim nothing. */
  lemma {:induction false} NothingLeftNothingClaimed(candidates: seq<string>, newer: seq<seq<string>>, older: seq<seq<string>>)
    requires WalkRest(candidates, newer) == []
    ensures WalkClaimed(candidates, newer + older) == WalkClaimed(candidates, newer)
    ensures WalkRest(candidates, newer + older) == []
    decreases |older|
  {
    if older == [] {
      assert newer + older == newer;
    } else {
      var k := |older| - 1;
      assert (newer + older)[..|newer| + k] == newer + older[..k];
      NothingLeftNothingClaimed(candidates, newer, older[..k]);
    }
  }

  lemma CountsMembers(names: seq<string>, n: string)
    ensures n in names <==> multiset(names)[n] > 0
  {
    assert n in names <==> n in multiset(names);
  }

  /** What is claimed runs, is no longer declared, and was declared by a recorded
      revision; and everything of which that holds is claimed. */
  lemma ClaimedIsProved(running: seq<string>, declared: seq<string>, candidates: seq<string>, revisions: seq<seq<string>>, name: string)
    requires Permuted(candidates, Within(running, declared, false))
    ensures name in WalkClaimed(candidates, revisions) <==> name in running && name !in declared && name in AllOf(revisions)
  {
    var claimed, rest := WalkClaimed(candidates, revisions), WalkRest(candidates, revisions);
    WithinCounts(running, declared, false, name);
    WalkIsUnion(candidates, revisions);
    WithinCounts(candidates, AllOf(revisions), false, name);
    CountsMembers(running, name);
    CountsMembers(claimed, name);
    hide WalkClaimed, WalkRest, Within, AllOf;
    assert multiset(claimed)[name] + multiset(rest)[name] == multiset(candidates)[name];
  }
}
