/** Owner stamps and release names (application/owner.go).

    A stamp says which controller and which application installed a release, and
    the sweep deletes on the strength of it. A release name scopes everything the
    stack creates, so two names that scope alike must not both be installed. */
module Names {
  import opened Text

  const OWNER_PREFIX := "cd/"
  const DEFAULT_CONTROLLER := "default"

  /** The id a controller really stamps with: its own, or the default. */
  function Effective(controller: string): string {
    if controller == "" then DEFAULT_CONTROLLER else controller
  }

  function OwnerID(controller: string, app: string): string {
    OWNER_PREFIX + Effective(controller) + "/" + app
  }

  function AppFromOwnerID(controller: string, id: string): Option<string> {
    var prefix := OWNER_PREFIX + Effective(controller) + "/";
    if !(prefix <= id) then None
    else
      var app := id[|prefix|..];
      if app == "" || '/' in app then None else Some(app)
  }

  /** What a stamp can name as an application. */
  predicate Stampable(app: string) {
    app != "" && '/' !in app
  }

  /** Reading inverts stamping exactly: an id is recognised as application a's if
      and only if it is the stamp this controller writes for a, and every
      stampable application's own stamp is read back. */
  lemma StampIsExact(controller: string, app: string, id: string)
    ensures AppFromOwnerID(controller, id) == Some(app) <==> id == OwnerID(controller, app) && Stampable(app)
  {
  }

  lemma EarlierSlashIsInTheRest(a: string, x: string, b: string, y: string)
    requires a + "/" + x == b + "/" + y
    requires |a| < |b|
    ensures '/' in x
  {
    var s := a + "/" + x;
    assert s == b + "/" + y;
    assert s[|b|] == '/' && s[|b|] == x[|b| - |a| - 1];
  }

  /** Text before the last '/' is determined by the whole when what follows it
      holds none. */
  lemma LastSlashSplits(a: string, x: string, b: string, y: string)
    requires a + "/" + x == b + "/" + y
    requires '/' !in x && '/' !in y
    ensures a == b && x == y
  {
    if |a| < |b| {
      EarlierSlashIsInTheRest(a, x, b, y);
    } else if |b| < |a| {
      EarlierSlashIsInTheRest(b, y, a, x);
    } else {
      var s := a + "/" + x;
      assert s == b + "/" + y;
      assert a == s[..|a|] && b == s[..|b|];
      assert x == s[|a| + 1..] && y == s[|b| + 1..];
    }
  }

  /** Two controllers recognise a common stamp exactly when they stamp with the
      same id, so controllers with different ids never read each other's
      releases as their own, whatever the ids contain. */
  lemma StampsKeepControllersApart(c: string, d: string)
    ensures Effective(c) == Effective(d) <==>
            exists id :: AppFromOwnerID(c, id).Some? && AppFromOwnerID(d, id).Some?
  {
    if Effective(c) == Effective(d) {
      var id := OwnerID(c, "a");
      StampIsExact(c, "a", id);
      StampIsExact(d, "a", id);
      assert AppFromOwnerID(c, id).Some? && AppFromOwnerID(d, id).Some?;
    }
    forall id | AppFromOwnerID(c, id).Some? && AppFromOwnerID(d, id).Some?
      ensures Effective(c) == Effective(d)
    {
      var x, y := AppFromOwnerID(c, id).value, AppFromOwnerID(d, id).value;
      StampIsExact(c, x, id);
      StampIsExact(d, y, id);
      LastSlashSplits(OWNER_PREFIX + Effective(c), x, OWNER_PREFIX + Effective(d), y);
      assert Effective(c) == (OWNER_PREFIX + Effective(c))[3..];
      assert Effective(d) == (OWNER_PREFIX + Effective(d))[3..];
    }
  }

  /** unicode.IsSpace. */
  predicate IsSpace(c: char) {
    '\t' <= c <= '\r' || c == ' ' || c == '\U{85}' || c == '\U{A0}' || c == '\U{1680}' ||
    '\U{2000}' <= c <= '\U{200A}' || c == '\U{2028}' || c == '\U{2029}' || c == '\U{202F}' ||
    c == '\U{205F}' || c == '\U{3000}'
  }

  datatype ControllerFault = EmptyID | HoldsDelimiter | HoldsSpace

  function ValidateControllerID(id: string): Option<ControllerFault> {
    if id == "" then Some(EmptyID)
    else if '/' in id || ':' in id then Some(HoldsDelimiter)
    else if exists c :: c in id && IsSpace(c) then Some(HoldsSpace)
    else None
  }

  /** What an id has to be, by code point: not empty, no delimiter of a stamp or of an
      address, and no white space. */
  lemma ValidIDsAre(id: string)
    ensures ValidateControllerID(id).None? <==>
            id != "" && forall c :: c in id ==>
              c != '/' && c != ':' && !(9 <= c as int <= 13) && !(8192 <= c as int <= 8202) &&
              c as int !in {32, 133, 160, 5760, 8232, 8233, 8239, 8287, 12288}
    ensures ValidateControllerID(id) == Some(EmptyID) <==> id == ""
    ensures ValidateControllerID(id) == Some(HoldsDelimiter) <==> exists c :: c in id && c in {'/', ':'}
  {
  }

  /** For an id that validates, a stamp is the only string with that controller
      in its second segment: the first '/' after the prefix ends the id. */
  lemma ValidIDsAreUnambiguous(controller: string, id: string)
    requires ValidateControllerID(controller).None?
    requires AppFromOwnerID(controller, id).Some?
    ensures '/' !in id[3..3 + |controller|] && id[3..3 + |controller|] == controller
    ensures id[3 + |controller|] == '/' && Stampable(id[4 + |controller|..])
  {
  }

  // --- release names ---

  predicate ReleasesCollide(a: string, b: string) {
    var la, lb := Fold(a), Fold(b);
    a != b && (la == lb || la + "_" <= lb || lb + "_" <= la)
  }

  /** How a stack names what it owns. */
  function Scope(release: string, name: string): string {
    release + "_" + name
  }

  /** Some name each of the two releases declares scopes to one name, compared as
      Swarm compares names. */
  ghost predicate ScopesMeet(a: string, b: string) {
    exists x, y :: x != "" && y != "" && Fold(Scope(a, x)) == Fold(Scope(b, y))
  }

  lemma ScopesMeetSymmetric(a: string, b: string)
    requires ScopesMeet(a, b)
    ensures ScopesMeet(b, a)
  {
  }

  lemma FoldScope(a: string, x: string)
    ensures Fold(Scope(a, x)) == Fold(a) + "_" + Fold(x)
  {
  }

  lemma LongerNameMeets(a: string, b: string)
    requires Fold(a) + "_" <= Fold(b)
    ensures ScopesMeet(a, b)
  {
    var x := b[|a| + 1..] + "_x";
    FoldScope(a, x);
    FoldScope(b, "x");
    var la, lb := Fold(a), Fold(b);
    assert lb == la + "_" + lb[|a| + 1..];
    assert Fold(x) == lb[|a| + 1..] + "_x";
    assert Fold(Scope(a, x)) == Fold(Scope(b, "x"));
  }

  lemma MeetingNamesNest(a: string, b: string)
    requires ScopesMeet(a, b)
    requires |a| <= |b|
    ensures Fold(a) == Fold(b) || Fold(a) + "_" <= Fold(b)
  {
    var x, y :| x != "" && y != "" && Fold(Scope(a, x)) == Fold(Scope(b, y));
    FoldScope(a, x);
    FoldScope(b, y);
    var la, lb := Fold(a), Fold(b);
    var s := la + "_" + Fold(x);
    assert s == lb + "_" + Fold(y);
    assert la == s[..|a|] && lb == s[..|b|];
    if |a| < |b| {
      assert lb[..|a| + 1] == s[..|a| + 1] == la + "_";
    }
  }

  /** ReleasesCollide refuses exactly the pairs whose scoped names can meet: no
      pair that could collide gets through and no other pair is refused. */
  lemma CollideIsExact(a: string, b: string)
    ensures a != b ==> (ReleasesCollide(a, b) <==> ScopesMeet(a, b))
  {
    var la, lb := Fold(a), Fold(b);
    if la == lb {
      FoldScope(a, "x");
      FoldScope(b, "x");
      assert Fold(Scope(a, "x")) == Fold(Scope(b, "x"));
    } else if la + "_" <= lb {
      LongerNameMeets(a, b);
    } else if lb + "_" <= la {
      LongerNameMeets(b, a);
      ScopesMeetSymmetric(b, a);
    }
    if ScopesMeet(a, b) {
      if |a| <= |b| {
        MeetingNamesNest(a, b);
      } else {
        ScopesMeetSymmetric(a, b);
        MeetingNamesNest(b, a);
      }
    }
  }

  /** scopedUnder: necessary, and not sufficient, for a name to be that stack's. */
  predicate ScopedUnder(namespace: string, name: string) {
    namespace != "" && namespace + "_" <= name
  }

  /** A name is scoped under two different releases only if the releases collide,
      so while no two installed releases collide the prefix alone decides whose a
      name is. */
  lemma ScopeDecidesOwner(a: string, b: string, name: string)
    requires ScopedUnder(a, name) && ScopedUnder(b, name)
    ensures a == b || ReleasesCollide(a, b)
  {
    if |a| < |b| {
      assert b == name[..|b|] && a + "_" == name[..|a| + 1];
      assert a + "_" <= b;
      FoldConcat(a, "_");
      FoldTake(b, |a| + 1);
      assert Fold(a + "_") == Fold(b)[..|a| + 1];
    } else if |b| < |a| {
      assert a == name[..|a|] && b + "_" == name[..|b| + 1];
      FoldConcat(b, "_");
      FoldTake(a, |b| + 1);
      assert Fold(b + "_") == Fold(a)[..|b| + 1];
    } else {
      assert a == name[..|a|] && b == name[..|b|];
    }
  }
}
