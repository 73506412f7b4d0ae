/** Lexical path containment: the host paths an application may mount
    (application/application.go), the files a chart may name (compose/compose.go)
    and the paths an app set may (config/config.go).

    All three compare strings that path.Clean has been over. Here a path is also
    the list of its segments, and the string tests are shown to be tests on that
    list. */
module Paths {
  import opened Text

  /** strings.Split(s, "/"). */
  function Split(s: string): (r: seq<string>)
    ensures r != []
    ensures forall i :: 0 <= i < |r| ==> '/' !in r[i]
  {
    if s == "" then [""]
    else
      var rest := Split(s[1..]);
      if s[0] == '/' then [""] + rest else [[s[0]] + rest[0]] + rest[1..]
  }

  /** One segment of a path onto those already resolved. */
  function Step(segs: seq<string>, seg: string, rooted: bool): seq<string> {
    if seg == "" || seg == "." then segs
    else if seg != ".." then segs + [seg]
    else if segs != [] && segs[|segs| - 1] != ".." then segs[..|segs| - 1]
    else if rooted then segs
    else segs + [".."]
  }

  function Resolve(raw: seq<string>, rooted: bool): seq<string> {
    if raw == [] then [] else Step(Resolve(raw[..|raw| - 1], rooted), raw[|raw| - 1], rooted)
  }

  predicate IsAbs(p: string) {
    p != "" && p[0] == '/'
  }

  /** A path's cleaned segments. */
  function Segments(p: string): seq<string> {
    Resolve(Split(p), IsAbs(p))
  }

  /** path.Clean. */
  function Clean(p: string): string {
    if IsAbs(p) then "/" + Join(Segments(p), "/")
    else if Segments(p) == [] then "."
    else Join(Segments(p), "/")
  }

  // --- segments and strings ---

  predicate IsSegment(s: string) {
    s != "" && s != "." && '/' !in s
  }

  predicate IsName(s: string) {
    IsSegment(s) && s != ".."
  }

  /** Cleaned segments: no empty ones, no ".", and ".." only at the front of a
      relative path. */
  ghost predicate Normal(segs: seq<string>, rooted: bool) {
    forall i :: 0 <= i < |segs| ==>
      (IsSegment(segs[i]) && (segs[i] == ".." ==> !rooted && forall k :: 0 <= k <= i ==> segs[k] == ".."))
  }

  lemma {:induction false} ResolveNormal(raw: seq<string>, rooted: bool)
    requires forall i :: 0 <= i < |raw| ==> '/' !in raw[i]
    ensures Normal(Resolve(raw, rooted), rooted)
    decreases |raw|
  {
    if raw != [] {
      var n := |raw| - 1;
      ResolveNormal(raw[..n], rooted);
      StepNormal(Resolve(raw[..n], rooted), raw[n], rooted);
    }
  }

  lemma StepNormal(segs: seq<string>, seg: string, rooted: bool)
    requires Normal(segs, rooted) && '/' !in seg
    ensures Normal(Step(segs, seg, rooted), rooted)
  {
  }

  lemma {:induction false} ResolveConcat(a: seq<string>, b: seq<string>, rooted: bool)
    ensures Resolve(a + b, rooted) == ResolveOnto(Resolve(a, rooted), b, rooted)
    decreases |b|
  {
    if b == [] {
      assert a + b == a;
    } else {
      var n := |b| - 1;
      assert (a + b)[..|a| + n] == a + b[..n];
      ResolveConcat(a, b[..n], rooted);
    }
  }

  function ResolveOnto(segs: seq<string>, raw: seq<string>, rooted: bool): seq<string> {
    if raw == [] then segs else Step(ResolveOnto(segs, raw[..|raw| - 1], rooted), raw[|raw| - 1], rooted)
  }

  /** Cleaned segments are a fixpoint of resolving. */
  lemma {:induction false} NormalResolves(segs: seq<string>, rooted: bool)
    requires Normal(segs, rooted)
    ensures Resolve(segs, rooted) == segs
    decreases |segs|
  {
    if segs != [] {
      var n := |segs| - 1;
      assert Normal(segs[..n], rooted);
      NormalResolves(segs[..n], rooted);
      assert segs == segs[..n] + [segs[n]];
    }
  }

  lemma SplitPrepend(c: char, s: string, first: seq<string>, rest: seq<string>)
    requires Split(s) == first + rest && first != []
    ensures Split([c] + s) == (if c == '/' then [""] + first else [[c] + first[0]] + first[1..]) + rest
  {
  }

  lemma Uncons(x: string, y: string)
    requires x != ""
    ensures x == [x[0]] + x[1..] && x + y == [x[0]] + (x[1..] + y)
  {
  }

  lemma {:induction false} SplitSlash(x: string, y: string)
    ensures Split(x + ("/" + y)) == Split(x) + Split(y)
    decreases |x|
  {
    if x == "" {
      assert x + ("/" + y) == "/" + y && ("/" + y)[1..] == y;
    } else {
      SplitSlash(x[1..], y);
      Uncons(x, "/" + y);
      hide Split;
      SplitPrepend(x[0], x[1..] + ("/" + y), Split(x[1..]), Split(y));
      assert Split(x[1..]) + [] == Split(x[1..]);
      SplitPrepend(x[0], x[1..], Split(x[1..]), []);
    }
  }

  lemma {:induction false} SplitSegment(x: string)
    requires '/' !in x
    ensures Split(x) == [x]
    decreases |x|
  {
    if x != "" {
      SplitSegment(x[1..]);
      assert x == [x[0]] + x[1..];
    }
  }

  /** Splitting undoes joining. */
  lemma {:induction false} SplitJoin(segs: seq<string>)
    requires segs != [] && forall i :: 0 <= i < |segs| ==> '/' !in segs[i]
    ensures Split(Join(segs, "/")) == segs
    decreases |segs|
  {
    SplitSegment(segs[0]);
    if |segs| == 1 {
      assert segs == [segs[0]];
    } else {
      SplitJoin(segs[1..]);
      SplitSlash(segs[0], Join(segs[1..], "/"));
      assert Join(segs, "/") == segs[0] + ("/" + Join(segs[1..], "/"));
      assert segs == [segs[0]] + segs[1..];
    }
  }

  lemma PrefixJoins(a: seq<string>, b: seq<string>)
    requires a != [] && a <= b && a != b
    ensures Join(a, "/") + "/" <= Join(b, "/")
  {
  }

  lemma PrefixSplits(x: string, y: string)
    requires x + "/" <= y
    ensures Split(x) <= Split(y)
  {
    hide Split;
    var rest := y[|x| + 1..];
    assert y == x + ("/" + rest);
    SplitSlash(x, rest);
  }

  /** A joined list begins another at a slash exactly when its segments begin the
      other's: "/srv/app" is no prefix of "/srv/apple". */
  lemma PrefixIsSegmentPrefix(a: seq<string>, b: seq<string>)
    requires a != [] && b != []
    requires (forall i :: 0 <= i < |a| ==> '/' !in a[i]) && forall i :: 0 <= i < |b| ==> '/' !in b[i]
    ensures Join(b, "/") == Join(a, "/") || Join(a, "/") + "/" <= Join(b, "/") <==> a <= b
  {
    hide Split, Join;
    SplitJoin(a);
    SplitJoin(b);
    if Join(a, "/") + "/" <= Join(b, "/") { PrefixSplits(Join(a, "/"), Join(b, "/")); }
    if a <= b && a != b { PrefixJoins(a, b); }
  }

  lemma SegmentsNormal(p: string)
    ensures Normal(Segments(p), IsAbs(p))
  {
    ResolveNormal(Split(p), IsAbs(p));
  }

  lemma RelativeJoinIsRelative(segs: seq<string>)
    requires segs != [] && forall i :: 0 <= i < |segs| ==> IsSegment(segs[i])
    ensures !IsAbs(Join(segs, "/"))
  {
  }

  lemma CleanKeepsSegments(p: string)
    ensures IsAbs(Clean(p)) == IsAbs(p) && Segments(Clean(p)) == Segments(p)
  {
    var segs := Segments(p);
    SegmentsNormal(p);
    NormalResolves(segs, IsAbs(p));
    if IsAbs(p) {
      RootedSegments(segs);
    } else if segs == [] {
      assert Split(".") == ["."] by { SplitSegment("."); }
      assert Resolve(["."], false) == Step(Resolve(["."][..0], false), ".", false);
    } else {
      RelativeJoinIsRelative(segs);
      SplitJoin(segs);
    }
  }

  lemma RootedSegments(segs: seq<string>)
    requires Normal(segs, true)
    ensures IsAbs("/" + Join(segs, "/")) && Segments("/" + Join(segs, "/")) == segs
  {
    var p := "/" + Join(segs, "/");
    assert p == "" + ("/" + Join(segs, "/"));
    SplitSlash("", Join(segs, "/"));
    if segs == [] {
      assert Split(p) == ["", ""];
      assert ["", ""][..1] == [""] && [""][..0] == [];
      assert Resolve([""], true) == [];
    } else {
      SplitJoin(segs);
      ResolveConcat([""], segs, true);
      assert Resolve([""], true) == [] by { assert [""][..0] == []; }
      ResolveConcat([], segs, true);
      assert [] + segs == segs;
      NormalResolves(segs, true);
    }
  }

  /** Cleaning a cleaned path changes nothing. */
  lemma CleanIdempotent(p: string)
    ensures Clean(Clean(p)) == Clean(p)
  {
    CleanKeepsSegments(p);
  }

  // --- what a path means, one more segment at a time ---

  lemma SegmentsOfMore(p: string, seg: string)
    requires p != "" && '/' !in seg
    ensures IsAbs(p + "/" + seg) == IsAbs(p)
    ensures Segments(p + "/" + seg) == Step(Segments(p), seg, IsAbs(p))
  {
    assert p + "/" + seg == p + ("/" + seg);
    SplitSlash(p, seg);
    SplitSegment(seg);
    assert (Split(p) + [seg])[..|Split(p)|] == Split(p);
    hide Split;
  }

  /** A name goes down, an empty segment or "." stays, and ".." undoes a name. */
  lemma NamesGoDown(p: string, name: string)
    requires p != "" && IsName(name)
    ensures Segments(p + "/" + name) == Segments(p) + [name]
    ensures Segments(p + "/" + name + "/..") == Segments(p)
    ensures Segments(p + "/.") == Segments(p) && Segments(p + "/") == Segments(p)
  {
    SegmentsOfMore(p, name);
    SegmentsOfMore(p + "/" + name, "..");
    SegmentsOfMore(p, ".");
    SegmentsOfMore(p, "");
    assert p + "/" + "" == p + "/" && p + "/" + "." == p + "/." && p + "/" + name + "/" + ".." == p + "/" + name + "/..";
    hide Segments;
  }

  /** ".." goes up from wherever there is a name to leave; from the root it stays, and
      a relative path that has nothing left to leave keeps it. */
  lemma DotsGoUp(p: string)
    requires p != ""
    ensures Segments(p) != [] && IsName(Segments(p)[|Segments(p)| - 1]) ==>
              Segments(p + "/..") == Segments(p)[..|Segments(p)| - 1]
    ensures IsAbs(p) && Segments(p) == [] ==> Segments(p + "/..") == []
    ensures !IsAbs(p) && (forall i :: 0 <= i < |Segments(p)| ==> Segments(p)[i] == "..") ==>
              Segments(p + "/..") == Segments(p) + [".."]
  {
    SegmentsOfMore(p, "..");
    assert p + "/" + ".." == p + "/..";
    hide Segments;
  }

  /** Where paths start. */
  lemma PathsStart(name: string)
    requires IsName(name)
    ensures Segments("/") == [] && Segments("/..") == [] && Segments("/" + name) == [name]
    ensures Segments("") == [] && Segments(".") == [] && Segments("..") == [".."] && Segments(name) == [name]
  {
    assert "/" == "" + ("/" + "") && "/" + name == "" + ("/" + name);
    SplitSlash("", "");
    SplitSlash("", name);
    SplitSegment(name);
    SplitSegment(".");
    SplitSegment("..");
    SplitSegment("");
    OneOrTwo(name);
    OneOrTwo("");
    OneOrTwo(".");
    OneOrTwo("..");
    assert !IsAbs(name);
    assert Segments("/") == [];
    RootThenDots();
    hide Segments, Split;
  }

  lemma RootThenDots()
    ensures Segments("/..") == []
  {
    assert "/.." == "" + ("/" + "..");
    SplitSlash("", "..");
    SplitSegment("");
    SplitSegment("..");
    OneOrTwo("..");
  }

  lemma OneOrTwo(seg: string)
    ensures Resolve([seg], true) == Step([], seg, true) && Resolve([seg], false) == Step([], seg, false)
    ensures Resolve(["", seg], true) == Step([], seg, true)
  {
    assert [seg][..0] == [] && ["", seg][..1] == [""] && [""][..0] == [];
    assert Resolve([""], true) == [];
  }

  // --- application.Allow.PermitsPath ---

  method PermitsPath(hostPaths: seq<string>, source: string) returns (ok: bool)
    ensures ok <==> exists i :: 0 <= i < |hostPaths| && Permits(hostPaths[i], source)
  {
    var clean := Clean(source);
    for i := 0 to |hostPaths|
      invariant forall k :: 0 <= k < i ==> !Permits(hostPaths[k], source)
    {
      var root := Clean(hostPaths[i]);
      if root == "/" || clean == root || root + "/" <= clean { return true; }
    }
    return false;
  }

  predicate Permits(allowed: string, source: string) {
    var root, clean := Clean(allowed), Clean(source);
    root == "/" || clean == root || root + "/" <= clean
  }

  /** For absolute paths, a permitted path covers exactly what its segments are a
      prefix of: itself and what is under it, and nothing beside or above it,
      however either is written. */
  lemma PermitsIsContainment(allowed: string, source: string)
    requires IsAbs(allowed) && IsAbs(source)
    ensures Permits(allowed, source) <==> Segments(allowed) <= Segments(source)
  {
    var a, b := Segments(allowed), Segments(source);
    SegmentsNormal(allowed);
    SegmentsNormal(source);
    hide Segments;
    if a == [] {
    } else if b == [] {
      SplitJoin(a);
      assert Join(a, "/") != "" by { SplitSegment(""); assert IsSegment(a[0]); }
      assert Clean(source) == "/" && Clean(allowed) == "/" + Join(a, "/");
    } else {
      PrefixIsSegmentPrefix(a, b);
      SplitJoin(a);
      assert Join(a, "/") != "" by { SplitSegment(""); assert IsSegment(a[0]); }
      assert Clean(allowed)[1..] == Join(a, "/") && Clean(source)[1..] == Join(b, "/");
      if Clean(allowed) + "/" <= Clean(source) {
        assert Join(a, "/") + "/" == (Clean(allowed) + "/")[1..] <= Clean(source)[1..];
      }
    }
  }

  /** So nothing a source writes after an allowed path gets out of it but by going
      up, and going up and down again is what it comes to: /srv/x/../app is
      permitted where /srv/app is. */
  lemma PermitsFollowsThePath(allowed: string, source: string, name: string)
    requires IsAbs(allowed) && IsAbs(source) && IsName(name)
    ensures Permits(allowed, source) ==> Permits(allowed, source + "/" + name)
    ensures Permits(allowed, source + "/" + name + "/..") <==> Permits(allowed, source)
    ensures Permits(allowed, allowed + "/" + name) && !Permits(allowed + "/" + name, allowed)
    ensures Permits("/", source)
  {
    NamesGoDown(source, name);
    NamesGoDown(allowed, name);
    PathsStart(name);
    PermitsIsContainment(allowed, source);
    PermitsIsContainment(allowed, source + "/" + name);
    PermitsIsContainment(allowed, source + "/" + name + "/..");
    PermitsIsContainment(allowed, allowed + "/" + name);
    PermitsIsContainment(allowed + "/" + name, allowed);
    PermitsIsContainment("/", source);
    hide Segments, Permits;
  }

  // --- chartFile and repoPath ---

  /** The test both make for a relative path that leaves its root. */
  predicate Escapes(clean: string) {
    clean == ".." || "../" <= clean
  }

  lemma EscapesIsLeadingDots(p: string)
    requires !IsAbs(p)
    ensures Escapes(Clean(p)) <==> Segments(p) != [] && Segments(p)[0] == ".."
  {
    var segs := Segments(p);
    SegmentsNormal(p);
    hide Segments;
    if segs != [] {
      PrefixIsSegmentPrefix([".."], segs);
      assert Join([".."], "/") == "..";
      assert [".."] <= segs <==> segs[0] == "..";
    }
  }

  lemma NoDotsInside(p: string)
    requires !IsAbs(p) && !Escapes(Clean(p))
    ensures forall i :: 0 <= i < |Segments(p)| ==> IsName(Segments(p)[i])
  {
    SegmentsNormal(p);
    EscapesIsLeadingDots(p);
  }

  lemma {:induction false} NamesAppend(base: seq<string>, raw: seq<string>)
    requires forall i :: 0 <= i < |raw| ==> IsName(raw[i])
    ensures ResolveOnto(base, raw, true) == base + raw
    decreases |raw|
  {
    if raw == [] {
      assert base + raw == base;
    } else {
      var n := |raw| - 1;
      NamesAppend(base, raw[..n]);
      assert base + raw == base + raw[..n] + [raw[n]];
    }
  }

  /** Where a relative path leads from a directory. */
  function Under(root: seq<string>, p: string): seq<string> {
    ResolveOnto(root, Segments(p), true)
  }

  /** Not escaping is containment: a relative path passes the test exactly when,
      from whatever directory it is resolved, it leads into that directory. */
  lemma ContainedExactly(p: string)
    requires !IsAbs(p)
    ensures !Escapes(Clean(p)) <==>
            forall root :: Normal(root, true) ==> root <= Under(root, p)
  {
    var segs := Segments(p);
    EscapesIsLeadingDots(p);
    if !Escapes(Clean(p)) {
      NoDotsInside(p);
      forall root | Normal(root, true) ensures root <= Under(root, p) {
        NamesAppend(root, segs);
      }
    } else {
      var other := Longer(segs);
      LongerIsNew(segs);
      SegmentsNormal(p);
      LeavesBehind(other, segs);
      assert Normal([other], true);
    }
  }

  /** A name longer than any of the segments. */
  function Longer(segs: seq<string>): string {
    if segs == [] then "a" else Longer(segs[..|segs| - 1]) + seq(|segs[|segs| - 1]|, _ => 'a')
  }

  lemma {:induction false} LongerIsNew(segs: seq<string>)
    ensures IsName(Longer(segs)) && Longer(segs)[0] == 'a' && Longer(segs) !in segs
    ensures forall i :: 0 <= i < |segs| ==> |segs[i]| < |Longer(segs)|
    decreases |segs|
  {
    if segs != [] {
      LongerIsNew(segs[..|segs| - 1]);
    }
  }

  function LeadingDots(segs: seq<string>): (k: nat)
    ensures k <= |segs| && forall i :: 0 <= i < k ==> segs[i] == ".."
    ensures k < |segs| ==> segs[k] != ".."
  {
    if segs == [] || segs[0] != ".." then 0 else 1 + LeadingDots(segs[1..])
  }

  lemma {:induction false} DotsLeave(dir: string, dots: seq<string>)
    requires dir != ".." && dots != [] && forall i :: 0 <= i < |dots| ==> dots[i] == ".."
    ensures ResolveOnto([dir], dots, true) == []
    decreases |dots|
  {
    if |dots| == 1 {
      assert dots[..0] == [];
    } else {
      DotsLeave(dir, dots[..|dots| - 1]);
    }
  }

  lemma {:induction false} ResolveOntoConcat(base: seq<string>, a: seq<string>, b: seq<string>)
    ensures ResolveOnto(base, a + b, true) == ResolveOnto(ResolveOnto(base, a, true), b, true)
    decreases |b|
  {
    if b == [] {
      assert a + b == a;
    } else {
      assert (a + b)[..|a| + |b| - 1] == a + b[..|b| - 1];
      ResolveOntoConcat(base, a, b[..|b| - 1]);
    }
  }

  /** From a one-segment directory, leading dots leave it, and what follows them
      does not come back to a name it does not hold. */
  lemma LeavesBehind(dir: string, segs: seq<string>)
    requires Normal(segs, false) && segs != [] && segs[0] == ".."
    requires IsName(dir) && dir !in segs
    ensures !([dir] <= ResolveOnto([dir], segs, true))
  {
    var k := LeadingDots(segs);
    var names := segs[k..];
    assert segs == segs[..k] + names;
    assert forall i :: 0 <= i < |names| ==> IsName(names[i]) by {
      forall i | 0 <= i < |names| ensures IsName(names[i]) {
        assert names[i] == segs[k + i];
      }
    }
    DotsLeave(dir, segs[..k]);
    ResolveOntoConcat([dir], segs[..k], names);
    NamesAppend([], names);
    assert [] + names == names;
    if names != [] {
      assert names[0] in segs && names[0] != [dir][0];
    }
  }

  /** What a config's file: holds as the manifest was read. */
  datatype Raw = Null | NotText | Text(p: string)

  datatype FileFault = NamesNoPath | NotAPath | InterpolationShaped | Absolute | Outside | NotInRoots | NotShipped

  datatype Found = Key(key: string) | Refuse(fault: FileFault)

  /** chartFile. */
  function ChartFile(raw: Raw, files: set<string>): Found {
    match raw
    case Null => Refuse(NamesNoPath)
    case NotText => Refuse(NotAPath)
    case Text(p) =>
      var clean := Clean(p);
      if '$' in p then Refuse(InterpolationShaped)
      else if IsAbs(p) then Refuse(Absolute)
      else if Escapes(clean) then Refuse(Outside)
      else if !("files/" <= clean) && !("values/" <= clean) then Refuse(NotInRoots)
      else if clean !in files then Refuse(NotShipped)
      else Key(clean)
  }

  /** A key that may be read: shipped, relative, free of "..", below files/ or
      values/, and written as cleaning would write it. */
  ghost predicate Readable(key: string, files: set<string>) {
    key in files && !IsAbs(key) && Clean(key) == key && |Segments(key)| >= 2 &&
    (Segments(key)[0] == "files" || Segments(key)[0] == "values") &&
    forall i :: 0 <= i < |Segments(key)| ==> IsName(Segments(key)[i])
  }

  lemma RootsAreFirstSegments(p: string, dir: string)
    requires !IsAbs(p) && IsName(dir) && dir != "."
    ensures dir + "/" <= Clean(p) <==> |Segments(p)| >= 2 && Segments(p)[0] == dir
  {
    var segs := Segments(p);
    SegmentsNormal(p);
    hide Segments;
    if segs == [] {
      assert Clean(p) == ".";
    } else {
      PrefixIsSegmentPrefix([dir], segs);
      SplitJoin(segs);
      SplitSegment(dir);
      assert Join([dir], "/") == dir;
      assert [dir] <= segs <==> segs[0] == dir;
      if segs[0] == dir && |segs| == 1 {
        assert segs == [dir];
      }
    }
  }

  /** A manifest gets a file exactly when its path carries no '$' and cleans to a
      readable key, and then the key is that cleaned path. */
  lemma ChartFileIsReadable(raw: Raw, files: set<string>)
    ensures ChartFile(raw, files).Key? <==>
            raw.Text? && '$' !in raw.p && !IsAbs(raw.p) && Readable(Clean(raw.p), files)
    ensures ChartFile(raw, files).Key? ==> ChartFile(raw, files).key == Clean(raw.p)
  {
    hide Clean, Segments, IsName;
    if raw.Text? && !IsAbs(raw.p) {
      NamesOfRoots();
      CleanKeepsSegments(raw.p);
      CleanIdempotent(raw.p);
      RootsAreFirstSegments(raw.p, "files");
      RootsAreFirstSegments(raw.p, "values");
      EscapesIsLeadingDots(raw.p);
      if !Escapes(Clean(raw.p)) { NoDotsInside(raw.p); }
    }
  }

  /** Every refusal says what is wrong, in the order asked. */
  lemma ChartFileRefusals(raw: Raw, files: set<string>)
    requires ChartFile(raw, files).Refuse?
    ensures match ChartFile(raw, files).fault
            case NamesNoPath => raw == Null
            case NotAPath => raw == NotText
            case InterpolationShaped => raw.Text? && '$' in raw.p
            case Absolute => raw.Text? && '$' !in raw.p && raw.p != "" && raw.p[0] == '/'
            case Outside => Relative(raw) && BelowDir(raw.p, "..")
            case NotInRoots => Relative(raw) && !BelowDir(raw.p, "..") && !BelowRoot(raw.p)
            case NotShipped => Relative(raw) && BelowRoot(raw.p) && Clean(raw.p) !in files
  {
    hide Clean, Segments, IsName;
    if raw.Text? && !IsAbs(raw.p) {
      NamesOfRoots();
      RootsAreFirstSegments(raw.p, "files");
      RootsAreFirstSegments(raw.p, "values");
      EscapesIsLeadingDots(raw.p);
    }
  }

  ghost predicate Relative(raw: Raw) {
    raw.Text? && '$' !in raw.p && (raw.p == "" || raw.p[0] != '/')
  }

  ghost predicate BelowDir(p: string, dir: string) {
    Segments(p) != [] && Segments(p)[0] == dir
  }

  ghost predicate BelowRoot(p: string) {
    |Segments(p)| >= 2 && (BelowDir(p, "files") || BelowDir(p, "values"))
  }

  lemma NamesOfRoots()
    ensures IsName("files") && IsName("values")
    ensures !IsName("..")
  {
  }
}
