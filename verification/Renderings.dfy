/** Joined text read back: when two renderings of drift/live.go are the same text,
    the values they were made of are the same. */
module Renderings {
  import opened Text
  import opened Specs

  /** The first c ends what is before it. */
  lemma FirstSplits(c: char, a: string, x: string, b: string, y: string)
    requires a + [c] + x == b + [c] + y
    requires c !in a && c !in b
    ensures a == b && x == y
  {
    var s, t := a + [c] + x, b + [c] + y;
    assert forall i :: 0 <= i < |a| ==> s[i] == a[i] && s[i] != c;
    assert forall i :: 0 <= i < |b| ==> t[i] == b[i] && t[i] != c;
    assert s[|a|] == c && t[|b|] == c;
    assert |a| == |b|;
    assert a == s[..|a|] && b == t[..|b|];
    assert x == s[|a| + 1..] && y == t[|b| + 1..];
  }

  predicate IsDigit(c: char) {
    '0' <= c <= '9'
  }

  lemma {:induction false} DecimalDigits(n: nat)
    ensures Decimal(n) != "" && forall c :: c in Decimal(n) ==> IsDigit(c)
    ensures IsDigit(Decimal(n)[0])
    ensures if n >= 10 then |Decimal(n)| >= 2 else |Decimal(n)| == 1
    decreases n
  {
    if n >= 10 {
      DecimalDigits(n / 10);
    }
  }

  lemma {:induction false} DecimalIsOneToOneOnNats(m: nat, n: nat)
    requires Decimal(m) == Decimal(n)
    ensures m == n
    decreases m
  {
    DecimalDigits(m);
    DecimalDigits(n);
    if m >= 10 && n >= 10 {
      var s, t := Decimal(m), Decimal(n);
      assert s[|s| - 1] == ('0' as int + m % 10) as char && t[|t| - 1] == ('0' as int + n % 10) as char;
      assert Decimal(m / 10) == s[..|s| - 1] && Decimal(n / 10) == t[..|t| - 1];
      DecimalIsOneToOneOnNats(m / 10, n / 10);
    }
  }

  /** A number is read off its decimal, which holds digits and at most a sign. */
  lemma DecimalIsOneToOne(m: int, n: int)
    ensures Decimal(m) == Decimal(n) <==> m == n
    ensures forall c :: c in Decimal(n) ==> IsDigit(c) || c == '-'
    ensures Decimal(n) != "" && (n >= 0 ==> IsDigit(Decimal(n)[0]))
  {
    var a, b := if m < 0 then -m else m, if n < 0 then -n else n;
    DecimalDigits(a);
    DecimalDigits(b);
    assert if m < 0 then Decimal(m)[0] == '-' && Decimal(m)[1..] == Decimal(a) else Decimal(m) == Decimal(a);
    assert if n < 0 then Decimal(n)[0] == '-' && Decimal(n)[1..] == Decimal(b) else Decimal(n) == Decimal(b);
    hide Decimal;
    if Decimal(m) == Decimal(n) {
      DecimalIsOneToOneOnNats(a, b);
    }
  }

  // --- lists joined with ", " ---

  /** Nothing in it looks like the separator. */
  predicate NoComma(s: string) {
    forall i :: 0 <= i < |s| - 1 ==> !(s[i] == ',' && s[i + 1] == ' ')
  }

  lemma SeparatorSplits(a: string, x: string, b: string, y: string)
    requires a + ", " + x == b + ", " + y
    requires NoComma(a) && NoComma(b)
    ensures a == b && x == y
  {
    var s, t := a + ", " + x, b + ", " + y;
    assert forall i :: 0 <= i < |a| ==> s[i] == a[i];
    assert forall i :: 0 <= i < |b| ==> t[i] == b[i];
    assert s[|a|] == ',' && t[|b|] == ',' && s[|a| + 1] == ' ' && t[|b| + 1] == ' ';
    assert |a| == |b|;
    assert a == s[..|a|] && b == t[..|b|];
    assert x == s[|a| + 2..] && y == t[|b| + 2..];
  }

  lemma SeparatorShows(a: string, b: string, y: string)
    requires a == b + ", " + y
    ensures !NoComma(a)
  {
    assert a[|b|] == ',' && a[|b| + 1] == ' ';
  }

  lemma {:induction false} JoinIsOneToOne(xs: seq<string>, ys: seq<string>)
    requires xs != [] && ys != [] && Join(xs, ", ") == Join(ys, ", ")
    requires (forall x :: x in xs ==> NoComma(x)) && forall y :: y in ys ==> NoComma(y)
    ensures xs == ys
    decreases |xs|
  {
    hide NoComma;
    assert xs[0] in xs && ys[0] in ys;
    if |xs| == 1 && |ys| == 1 {
      assert xs == [xs[0]] && ys == [ys[0]];
    } else if |xs| == 1 {
      SeparatorShows(xs[0], ys[0], Join(ys[1..], ", "));
    } else if |ys| == 1 {
      SeparatorShows(ys[0], xs[0], Join(xs[1..], ", "));
    } else {
      SeparatorSplits(xs[0], Join(xs[1..], ", "), ys[0], Join(ys[1..], ", "));
      JoinIsOneToOne(xs[1..], ys[1..]);
      assert xs == [xs[0]] + xs[1..] && ys == [ys[0]] + ys[1..];
    }
  }

  // --- lists that become maps ---

  ghost predicate KeysDiffer<T>(xs: seq<T>, entry: T -> Option<Pair>) {
    forall i, j :: 0 <= i < j < |xs| && entry(xs[i]).Some? && entry(xs[j]).Some? ==> entry(xs[i]).value.key != entry(xs[j]).value.key
  }

  ghost predicate Holds<T>(xs: seq<T>, entry: T -> Option<Pair>, k: string, v: string) {
    exists i :: 0 <= i < |xs| && entry(xs[i]) == Some(Pair(k, v))
  }

  ghost predicate At(m: map<string, string>, k: string, v: string) {
    k in m && m[k] == v
  }

  /** With no key twice, the map holds exactly the pairs of the list. */
  lemma {:induction false} IndexIsRelation<T>(xs: seq<T>, entry: T -> Option<Pair>, k: string, v: string)
    requires KeysDiffer(xs, entry)
    ensures At(IndexOf(xs, entry), k, v) <==> Holds(xs, entry, k, v)
    decreases |xs|
  {
    if xs != [] {
      var n := |xs| - 1;
      var before, e := xs[..n], entry(xs[n]);
      assert forall i :: 0 <= i < n ==> before[i] == xs[i];
      IndexIsRelation(before, entry, k, v);
      assert Holds(before, entry, k, v) ==> e.None? || e.value.key != k;
      assert Holds(xs, entry, k, v) <==> Holds(before, entry, k, v) || e == Some(Pair(k, v)) by {
        if Holds(before, entry, k, v) {
          var i :| 0 <= i < n && entry(before[i]) == Some(Pair(k, v));
          assert entry(xs[i]) == Some(Pair(k, v));
        }
      }
    }
  }

  /** The last entry of the key has this value. */
  ghost predicate LastHolds<T>(xs: seq<T>, entry: T -> Option<Pair>, k: string, v: string) {
    exists i :: 0 <= i < |xs| && entry(xs[i]) == Some(Pair(k, v)) &&
      forall j :: i < j < |xs| ==> entry(xs[j]).None? || entry(xs[j]).value.key != k
  }

  /** Whatever keys come twice, the map holds what the last of them says. */
  lemma {:induction false} IndexIsLast<T>(xs: seq<T>, entry: T -> Option<Pair>, k: string, v: string)
    ensures At(IndexOf(xs, entry), k, v) <==> LastHolds(xs, entry, k, v)
    decreases |xs|
  {
    if xs != [] {
      var n := |xs| - 1;
      var before, e := xs[..n], entry(xs[n]);
      assert forall i :: 0 <= i < n ==> before[i] == xs[i];
      IndexIsLast(before, entry, k, v);
      if LastHolds(before, entry, k, v) && (e.None? || e.value.key != k) {
        var i :| 0 <= i < n && entry(before[i]) == Some(Pair(k, v)) &&
          forall j :: i < j < n ==> entry(before[j]).None? || entry(before[j]).value.key != k;
        assert entry(xs[i]) == Some(Pair(k, v));
      }
    }
  }

  /** Two such maps are one exactly when the lists hold the same pairs. */
  lemma IndexesAgree<T>(xs: seq<T>, ys: seq<T>, entry: T -> Option<Pair>)
    requires KeysDiffer(xs, entry) && KeysDiffer(ys, entry)
    ensures IndexOf(xs, entry) == IndexOf(ys, entry) <==> forall k, v :: Holds(xs, entry, k, v) <==> Holds(ys, entry, k, v)
  {
    hide IndexOf, Holds, KeysDiffer, At;
    MapsAgree(IndexOf(xs, entry), IndexOf(ys, entry));
    forall k, v
      ensures At(IndexOf(xs, entry), k, v) <==> Holds(xs, entry, k, v)
      ensures At(IndexOf(ys, entry), k, v) <==> Holds(ys, entry, k, v)
    {
      IndexIsRelation(xs, entry, k, v);
      IndexIsRelation(ys, entry, k, v);
    }
  }

  lemma MapsAgree(a: map<string, string>, b: map<string, string>)
    ensures a == b <==> forall k, v :: At(a, k, v) <==> At(b, k, v)
  {
    if forall k, v :: At(a, k, v) <==> At(b, k, v) {
      forall k ensures (k in a <==> k in b) && (k in a ==> a[k] == b[k]) {
        if k in a { assert At(a, k, a[k]); }
        if k in b { assert At(b, k, b[k]); }
      }
      assert a == b;
    }
  }

  // --- values collected under a key ---

  lemma {:induction false} ValuesCounted(pairs: seq<Pair>, k: string)
    ensures forall v :: multiset(ValuesOf(pairs, k))[v] == multiset(pairs)[Pair(k, v)]
    decreases |pairs|
  {
    if pairs != [] {
      var n := |pairs| - 1;
      ValuesCounted(pairs[..n], k);
      assert pairs == pairs[..n] + [pairs[n]];
    }
  }

  ghost predicate KeyIn(ps: seq<Pair>, k: string) {
    exists i :: 0 <= i < |ps| && ps[i].key == k
  }

  ghost function ValuesJoin(ps: seq<Pair>, k: string): string {
    Join(Sorted(ValuesOf(ps, k)), ", ")
  }

  lemma JoinedIs(ps: seq<Pair>)
    ensures forall k :: k in Joined(ps) <==> KeyIn(ps, k)
    ensures forall k :: k in Joined(ps) ==> Joined(ps)[k] == ValuesJoin(ps, k)
  {
  }

  lemma JoinedEqual(a: map<string, string>, b: map<string, string>)
    requires forall k :: k in a <==> k in b
    requires forall k :: k in a ==> k in b && a[k] == b[k]
    ensures a == b
  {
  }

  /** Two lists of pairs are joined alike exactly when they hold the same pairs as
      often, whatever their order. */
  lemma JoinedAgree(ps: seq<Pair>, qs: seq<Pair>)
    requires (forall p :: p in ps ==> NoComma(p.value)) && forall q :: q in qs ==> NoComma(q.value)
    ensures Joined(ps) == Joined(qs) <==> multiset(ps) == multiset(qs)
  {
    hide NoComma, Sorted, Join, FilterMap, Joined;
    if multiset(ps) == multiset(qs) {
      JoinedIs(ps);
      JoinedIs(qs);
      forall k ensures ValuesJoin(ps, k) == ValuesJoin(qs, k) {
        ValuesCounted(ps, k);
        ValuesCounted(qs, k);
        SortedIsCanonical(ValuesOf(ps, k), ValuesOf(qs, k));
        assert multiset(ValuesOf(ps, k)) == multiset(ValuesOf(qs, k));
      }
      forall k ensures KeyIn(ps, k) <==> KeyIn(qs, k) {
        SameKeys(ps, qs, k);
        SameKeys(qs, ps, k);
      }
      hide ValuesJoin, KeyIn;
      JoinedEqual(Joined(ps), Joined(qs));
    }
    if Joined(ps) == Joined(qs) {
      forall p ensures multiset(ps)[p] == multiset(qs)[p] {
        ValuesCounted(ps, p.key);
        ValuesCounted(qs, p.key);
        SameUnderKey(ps, qs, p.key);
        assert p == Pair(p.key, p.value);
      }
    }
  }

  lemma SameKeys(ps: seq<Pair>, qs: seq<Pair>, k: string)
    requires multiset(ps) == multiset(qs)
    ensures KeyIn(ps, k) ==> KeyIn(qs, k)
  {
    SameMembers(ps, qs);
    if KeyIn(ps, k) {
      var i :| 0 <= i < |ps| && ps[i].key == k;
      var j :| 0 <= j < |qs| && qs[j] == ps[i];
    }
  }

  lemma SameUnderKey(ps: seq<Pair>, qs: seq<Pair>, k: string)
    requires (forall p :: p in ps ==> NoComma(p.value)) && forall q :: q in qs ==> NoComma(q.value)
    requires Joined(ps) == Joined(qs)
    ensures multiset(ValuesOf(ps, k)) == multiset(ValuesOf(qs, k))
  {
    ValuesAre(ps, k);
    ValuesAre(qs, k);
    var xs, ys := ValuesOf(ps, k), ValuesOf(qs, k);
    assert k in Joined(ps) <==> xs != [];
    assert k in Joined(qs) <==> ys != [];
    SortedKeepsMembers(xs);
    SortedKeepsMembers(ys);
    SortedIsCanonical(xs, ys);
    hide NoComma, Sorted, Join, FilterMap;
    if xs != [] {
      assert Joined(ps)[k] == Joined(qs)[k];
      JoinIsOneToOne(Sorted(xs), Sorted(ys));
    }
  }

  /** The values under a key, and that there are some exactly when the key is there. */
  lemma ValuesAre(ps: seq<Pair>, k: string)
    ensures forall v :: v in ValuesOf(ps, k) <==> Pair(k, v) in ps
    ensures ValuesOf(ps, k) != [] <==> exists i :: 0 <= i < |ps| && ps[i].key == k
  {
    ValuesCounted(ps, k);
    var xs := ValuesOf(ps, k);
    forall v ensures v in xs <==> Pair(k, v) in ps {
      assert v in multiset(xs) <==> Pair(k, v) in multiset(ps);
    }
    if xs != [] {
      assert xs[0] in xs;
      var i :| 0 <= i < |ps| && ps[i] == Pair(k, xs[0]);
    }
    if i :| 0 <= i < |ps| && ps[i].key == k {
      assert ps[i] == Pair(k, ps[i].value) && ps[i] in ps;
    }
  }

  // --- counting ---

  ghost predicate OneToOne<T(!new), U>(xs: seq<T>, ys: seq<T>, f: T -> Option<U>) {
    forall x, y :: (x in xs || x in ys) && (y in xs || y in ys) && f(x) == f(y) && f(x).Some? ==> x == y
  }

  lemma {:induction false} FilterMapCounts<T(!new), U>(xs: seq<T>, f: T -> Option<U>, x: T)
    requires f(x).Some? && forall y :: y in xs && f(y) == f(x) ==> y == x
    ensures multiset(FilterMap(xs, f))[f(x).value] == multiset(xs)[x]
    decreases |xs|
  {
    if xs != [] {
      var n := |xs| - 1;
      FilterMapCounts(xs[..n], f, x);
      assert xs == xs[..n] + [xs[n]];
      assert xs[n] in xs;
    }
  }

  lemma {:induction false} FilterMapMembers<T, U>(xs: seq<T>, f: T -> Option<U>)
    ensures forall u :: u in FilterMap(xs, f) <==> exists i :: 0 <= i < |xs| && f(xs[i]) == Some(u)
    decreases |xs|
  {
    if xs != [] {
      var n := |xs| - 1;
      assert forall i :: 0 <= i < n ==> xs[..n][i] == xs[i];
      FilterMapMembers(xs[..n], f);
    }
  }

  ghost predicate SameCounts<T(!new)>(xs: seq<T>, ys: seq<T>, counted: T -> bool) {
    forall x :: counted(x) ==> multiset(xs)[x] == multiset(ys)[x]
  }

  lemma CountIsSame<T(!new), U>(xs: seq<T>, ys: seq<T>, f: T -> Option<U>, x: T)
    requires OneToOne(xs, ys, f) && f(x).Some? && (x in xs || x in ys)
    ensures multiset(FilterMap(xs, f))[f(x).value] == multiset(xs)[x]
    ensures multiset(FilterMap(ys, f))[f(x).value] == multiset(ys)[x]
  {
    FilterMapCounts(xs, f, x);
    FilterMapCounts(ys, f, x);
  }

  lemma CountsMakeIt<U(!new)>(a: multiset<U>, b: multiset<U>)
    requires forall u :: a[u] == b[u]
    ensures a == b
  {
  }

  /** When what is mapped tells apart what it was, two lists are mapped to the same
      values, as often, exactly when they hold the same things as often. */
  lemma FilterMapsAgree<T(!new), U(!new)>(xs: seq<T>, ys: seq<T>, f: T -> Option<U>, counted: T -> bool)
    requires OneToOne(xs, ys, f) && forall x :: counted(x) <==> f(x).Some?
    ensures multiset(FilterMap(xs, f)) == multiset(FilterMap(ys, f)) <==> SameCounts(xs, ys, counted)
  {
    FilterMapMembers(xs, f);
    FilterMapMembers(ys, f);
    hide FilterMap, OneToOne;
    if SameCounts(xs, ys, counted) {
      forall u ensures multiset(FilterMap(xs, f))[u] == multiset(FilterMap(ys, f))[u] {
        if u in FilterMap(xs, f) {
          var i :| 0 <= i < |xs| && f(xs[i]) == Some(u);
          assert counted(xs[i]) && f(xs[i]).value == u;
          CountIsSame(xs, ys, f, xs[i]);
        } else if u in FilterMap(ys, f) {
          var i :| 0 <= i < |ys| && f(ys[i]) == Some(u);
          assert counted(ys[i]) && f(ys[i]).value == u;
          CountIsSame(xs, ys, f, ys[i]);
        }
      }
      CountsMakeIt(multiset(FilterMap(xs, f)), multiset(FilterMap(ys, f)));
    }
    if multiset(FilterMap(xs, f)) == multiset(FilterMap(ys, f)) {
      forall x | counted(x) ensures multiset(xs)[x] == multiset(ys)[x] {
        if x in xs || x in ys { CountIsSame(xs, ys, f, x); }
      }
    }
  }
}
