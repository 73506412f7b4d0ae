/** Strings as the controller compares them: case folding over ASCII names, an
    ordering, and sorting. */
module Text {

  datatype Option<+T> = None | Some(value: T)

  function FoldChar(c: char): char {
    if 'A' <= c <= 'Z' then (c as int + 32) as char else c
  }

  /** strings.ToLower over an ASCII name. */
  function Fold(s: string): (r: string)
    ensures |r| == |s|
    ensures forall i :: 0 <= i < |s| ==> r[i] == FoldChar(s[i])
  {
    seq(|s|, i requires 0 <= i < |s| => FoldChar(s[i]))
  }

  /** Two names are folded alike exactly when they differ at most in the case of
      letters A to Z. */
  lemma FoldsAlike(a: string, b: string)
    ensures Fold(a) == Fold(b) <==>
            |a| == |b| && forall i :: 0 <= i < |a| ==>
              a[i] == b[i] || (65 <= a[i] as int <= 90 && a[i] as int + 32 == b[i] as int) ||
              (65 <= b[i] as int <= 90 && b[i] as int + 32 == a[i] as int)
  {
    if Fold(a) == Fold(b) {
      assert forall i :: 0 <= i < |a| ==> Fold(a)[i] == Fold(b)[i];
    }
  }

  lemma FoldConcat(a: string, b: string)
    ensures Fold(a + b) == Fold(a) + Fold(b)
  {
  }

  lemma FoldTake(s: string, n: nat)
    requires n <= |s|
    ensures Fold(s[..n]) == Fold(s)[..n]
  {
  }

  /** strings.Join. */
  function Join(segs: seq<string>, sep: string): string {
    if segs == [] then "" else if |segs| == 1 then segs[0] else segs[0] + sep + Join(segs[1..], sep)
  }

  /** Lexicographic "at most", the order slices.Sort uses. */
  predicate AtMost(a: string, b: string) {
    a == [] || (b != [] && (a[0] < b[0] || (a[0] == b[0] && AtMost(a[1..], b[1..]))))
  }

  lemma {:induction false} AtMostTotal(a: string, b: string)
    ensures AtMost(a, b) || AtMost(b, a)
  {
    if a != [] && b != [] && a[0] == b[0] {
      AtMostTotal(a[1..], b[1..]);
    }
  }

  lemma {:induction false} AtMostAntisymmetric(a: string, b: string)
    requires AtMost(a, b) && AtMost(b, a)
    ensures a == b
  {
    if a != [] && b != [] {
      AtMostAntisymmetric(a[1..], b[1..]);
      assert a == [a[0]] + a[1..] && b == [b[0]] + b[1..];
    }
  }

  lemma {:induction false} AtMostTransitive(a: string, b: string, c: string)
    requires AtMost(a, b) && AtMost(b, c)
    ensures AtMost(a, c)
  {
    if a != [] && a[0] == b[0] == c[0] {
      AtMostTransitive(a[1..], b[1..], c[1..]);
    }
  }

  predicate Ascending(s: seq<string>) {
    forall i, j :: 0 <= i < j < |s| ==> AtMost(s[i], s[j])
  }

  /** Puts x into an ascending list. */
  function Insert(x: string, s: seq<string>): (r: seq<string>)
    ensures multiset(r) == multiset([x]) + multiset(s)
    ensures |r| == |s| + 1
  {
    if s == [] then [x]
    else if AtMost(x, s[0]) then [x] + s
    else
      assert s == [s[0]] + s[1..];
      [s[0]] + Insert(x, s[1..])
  }

  lemma {:induction false} InsertAscending(x: string, s: seq<string>)
    requires Ascending(s)
    ensures Ascending(Insert(x, s))
  {
    if s == [] {
    } else if AtMost(x, s[0]) {
      forall j | 0 <= j < |s| ensures AtMost(x, s[j]) {
        if j > 0 { AtMostTransitive(x, s[0], s[j]); }
      }
    } else {
      AtMostTotal(x, s[0]);
      InsertAscending(x, s[1..]);
      var t := Insert(x, s[1..]);
      forall j | 0 <= j < |t| ensures AtMost(s[0], t[j]) {
        assert t[j] in multiset(t);
        assert multiset(t) == multiset([x]) + multiset(s[1..]);
        assert t[j] in multiset([x]) || t[j] in multiset(s[1..]);
      }
      assert Insert(x, s) == [s[0]] + t;
    }
  }

  /** slices.Sort. */
  function Sorted(s: seq<string>): (r: seq<string>)
    ensures multiset(r) == multiset(s)
    ensures |r| == |s|
  {
    if s == [] then []
    else
      assert s == [s[0]] + s[1..];
      Insert(s[0], Sorted(s[1..]))
  }

  lemma {:induction false} SortedAscending(s: seq<string>)
    ensures Ascending(Sorted(s))
  {
    if s != [] {
      SortedAscending(s[1..]);
      InsertAscending(s[0], Sorted(s[1..]));
    }
  }

  /** The head of an ascending list is at most everything in it. */
  lemma HeadIsLeast(a: seq<string>, x: string)
    requires Ascending(a) && x in a
    ensures AtMost(a[0], x)
  {
    var i :| 0 <= i < |a| && a[i] == x;
    if i == 0 { AtMostTotal(x, x); }
  }

  lemma HeadsAgree(a: seq<string>, b: seq<string>)
    requires Ascending(a) && Ascending(b)
    requires a != [] && b != [] && a[0] in b && b[0] in a
    ensures a[0] == b[0]
  {
    HeadIsLeast(a, b[0]);
    HeadIsLeast(b, a[0]);
    AtMostAntisymmetric(a[0], b[0]);
  }

  lemma TailsAgree<T>(a: seq<T>, b: seq<T>)
    requires a != [] && b != [] && a[0] == b[0]
    requires multiset(a) == multiset(b)
    ensures multiset(a[1..]) == multiset(b[1..])
  {
    assert a == [a[0]] + a[1..] && b == [b[0]] + b[1..];
    assert multiset(a[1..]) == multiset(a) - multiset([a[0]]);
    assert multiset(b[1..]) == multiset(b) - multiset([b[0]]);
  }

  lemma SameMembers<T>(a: seq<T>, b: seq<T>)
    requires multiset(a) == multiset(b)
    ensures |a| == |b|
    ensures forall i :: 0 <= i < |a| ==> a[i] in b
  {
    assert |multiset(a)| == |multiset(b)|;
    forall i | 0 <= i < |a| ensures a[i] in b {
      assert a[i] in multiset(b);
    }
  }

  /** Two ascending lists with the same entries are one list. */
  lemma {:induction false} AscendingUnique(a: seq<string>, b: seq<string>)
    requires Ascending(a) && Ascending(b)
    requires multiset(a) == multiset(b)
    ensures a == b
  {
    SameMembers(a, b);
    SameMembers(b, a);
    if a != [] {
      HeadsAgree(a, b);
      TailsAgree(a, b);
      AscendingUnique(a[1..], b[1..]);
      assert a == [a[0]] + a[1..] && b == [b[0]] + b[1..];
    }
  }

  /** Sorting forgets the order of a list and nothing else. */
  lemma SortedIsCanonical(a: seq<string>, b: seq<string>)
    ensures Sorted(a) == Sorted(b) <==> multiset(a) == multiset(b)
  {
    SortedAscending(a);
    SortedAscending(b);
    if multiset(a) == multiset(b) {
      AscendingUnique(Sorted(a), Sorted(b));
    }
  }

  ghost predicate Distinct<T>(s: seq<T>) {
    forall i, j :: 0 <= i < j < |s| ==> s[i] != s[j]
  }

  lemma {:induction false} DistinctCounts<T>(s: seq<T>)
    requires Distinct(s)
    ensures forall n :: multiset(s)[n] <= 1
  {
    if s != [] {
      var m := |s| - 1;
      DistinctCounts(s[..m]);
      assert s == s[..m] + [s[m]];
      assert s[m] !in s[..m];
      assert multiset(s) == multiset(s[..m]) + multiset([s[m]]);
    }
  }

  lemma RepeatsCount<T>(s: seq<T>, i: nat, j: nat)
    requires i < j < |s| && s[i] == s[j]
    ensures multiset(s)[s[i]] >= 2
  {
    assert s == s[..j] + ([s[j]] + s[j + 1..]);
    assert multiset(s) == multiset(s[..j]) + (multiset([s[j]]) + multiset(s[j + 1..]));
    assert s[..j][i] in multiset(s[..j]);
  }

  lemma SortedKeepsMembers(s: seq<string>)
    ensures forall n :: n in Sorted(s) <==> n in s
    ensures Distinct(s) ==> Distinct(Sorted(s))
  {
    var t := Sorted(s);
    forall n ensures n in t <==> n in s {
      assert n in multiset(t) <==> n in multiset(s);
    }
    if Distinct(s) {
      DistinctCounts(s);
      forall i, j | 0 <= i < j < |t| ensures t[i] != t[j] {
        if t[i] == t[j] { RepeatsCount(t, i, j); }
      }
    }
  }

  /** s with every occurrence of x removed (slices.DeleteFunc on equality). */
  function Without<T(==,!new)>(s: seq<T>, x: T): (r: seq<T>)
    ensures forall y :: y in r <==> y in s && y != x
    ensures Distinct(s) ==> Distinct(r)
  {
    if s == [] then []
    else
      var rest := Without(s[1..], x);
      assert Distinct(s) ==> Distinct(s[1..]) && s[0] !in s[1..];
      if s[0] == x then rest else [s[0]] + rest
  }

  /** The values a list maps to, where it has one. */
  function FilterMap<T, U>(xs: seq<T>, f: T -> Option<U>): seq<U> {
    if xs == [] then []
    else FilterMap(xs[..|xs| - 1], f) + if f(xs[|xs| - 1]).None? then [] else [f(xs[|xs| - 1]).value]
  }

  lemma {:induction false} FilterMapConcat<T, U>(a: seq<T>, b: seq<T>, f: T -> Option<U>)
    ensures FilterMap(a + b, f) == FilterMap(a, f) + FilterMap(b, f)
    decreases |b|
  {
    if b == [] {
      assert a + b == a;
    } else {
      var n := |b| - 1;
      FilterMapConcat(a, b[..n], f);
      assert (a + b)[..|a| + n] == a + b[..n];
    }
  }

  predicate Permuted<T(==)>(a: seq<T>, b: seq<T>) {
    multiset(a) == multiset(b)
  }

  lemma RemoveAt<T>(b: seq<T>, j: nat)
    requires j < |b|
    ensures b == b[..j] + [b[j]] + b[j + 1..]
    ensures multiset(b[..j] + b[j + 1..]) == multiset(b) - multiset([b[j]])
  {
  }

  lemma FilterMapAt<T, U>(b: seq<T>, j: nat, f: T -> Option<U>)
    requires j < |b|
    ensures multiset(FilterMap(b, f)) == multiset(FilterMap(b[..j] + b[j + 1..], f)) + multiset(FilterMap([b[j]], f))
  {
    RemoveAt(b, j);
    FilterMapConcat(b[..j] + [b[j]], b[j + 1..], f);
    FilterMapConcat(b[..j], [b[j]], f);
    FilterMapConcat(b[..j], b[j + 1..], f);
    hide FilterMap;
    assert multiset(FilterMap(b, f)) ==
           multiset(FilterMap(b[..j], f)) + multiset(FilterMap([b[j]], f)) + multiset(FilterMap(b[j + 1..], f));
  }

  /** Reordering a list reorders what it maps to. */
  lemma {:induction false} FilterMapPermuted<T, U>(a: seq<T>, b: seq<T>, f: T -> Option<U>)
    requires Permuted(a, b)
    ensures Permuted(FilterMap(a, f), FilterMap(b, f))
    decreases |a|
  {
    SameMembers(a, b);
    if a != [] {
      var n := |a| - 1;
      var j :| 0 <= j < |b| && b[j] == a[n];
      hide FilterMap;
      RemoveAt(b, j);
      RemoveAt(a, n);
      FilterMapAt(b, j, f);
      FilterMapAt(a, n, f);
      FilterMapPermuted(a[..n] + a[n + 1..], b[..j] + b[j + 1..], f);
    }
  }

  /** sub is what is left of s when some entries are skipped. */
  ghost predicate Subsequence<T(!new)>(sub: seq<T>, s: seq<T>)
    decreases |s|
  {
    if s == [] then sub == []
    else (sub != [] && sub[|sub| - 1] == s[|s| - 1] && Subsequence(sub[..|sub| - 1], s[..|s| - 1]))
         || Subsequence(sub, s[..|s| - 1])
  }

  lemma SubsequenceNext<T(!new)>(sub: seq<T>, s: seq<T>, x: T, keep: bool)
    requires Subsequence(sub, s)
    ensures Subsequence(if keep then sub + [x] else sub, s + [x])
  {
  }
}
