/** Whose a config or secret is (backend/resource.go, backend/live.go).

    Applying a stack creates the objects it declares and adopts those it finds.
    Afterwards both carry the stack's label, and only a creation marker tells an
    object that may be swept from one that was somebody's before. The marker says
    that a deploy made the object. It does not say which stack's. */
module Provenance {
  import opened Text
  import Gate
  import Installs

  const CREATED_LABEL := "com.swarmcli.cd.created"

  datatype Kind = Secret | Config

  datatype Key = Key(kind: Kind, name: string)

  type Labels = map<string, string>

  /** An object under a name. Its id and version are the daemon's. */
  datatype Object = Object(id: nat, version: nat, labels: Labels, data: string)

  datatype Spec = Spec(name: string, labels: Labels, data: string)

  /** One object ever stored: the name it was stored under and its id. */
  datatype Birth = Birth(key: Key, id: nat)

  /** What a call that succeeded wrote. */
  datatype Write = Write(key: Key, labels: Labels, data: string)

  /** A namespace label changed: of which object, to what, and whether by a deploy
      of this controller or by somebody else. */
  datatype Move = Move(birth: Birth, to: string, ours: bool)

  predicate Marked(labels: Labels) {
    CREATED_LABEL in labels
  }

  function StampCreated(labels: Labels, now: string): Labels {
    labels[CREATED_LABEL := now]
  }

  function KeepCreated(labels: Labels, current: Labels): Labels {
    if Marked(current) then labels[CREATED_LABEL := current[CREATED_LABEL]] else labels
  }

  predicate MayBeReleaseRecord(labels: Labels) {
    Installs.Label(labels, Installs.LABEL_TYPE) == Installs.TYPE_RELEASE
  }

  function NamespaceOf(labels: Labels): string {
    Installs.Label(labels, Installs.LABEL_NAMESPACE)
  }

  predicate Namespaced(labels: Labels, stack: string) {
    Installs.LABEL_NAMESPACE in labels && labels[Installs.LABEL_NAMESPACE] == stack
  }

  predicate Adoptable(current: Labels, labels: Labels, allowed: seq<string>, name: string) {
    NamespaceOf(current) == NamespaceOf(labels) || name in allowed
  }

  /** What the sweep of a stack may consider. */
  predicate Offered(kind: Kind, labels: Labels, stack: string) {
    Namespaced(labels, stack) && Marked(labels) && !(kind == Config && MayBeReleaseRecord(labels))
  }

  /** What a stack declares: its own label, and none reserved to the controller. */
  predicate Declarable(labels: Labels, stack: string) {
    Namespaced(labels, stack) && !Gate.HasReservedLabel(labels)
  }

  lemma DeclarableIsPlain(labels: Labels, stack: string)
    requires Declarable(labels, stack)
    ensures !Marked(labels) && !MayBeReleaseRecord(labels) && NamespaceOf(labels) == stack
  {
    assert Gate.RESERVED_PREFIX <= CREATED_LABEL && Gate.RESERVED_PREFIX <= Installs.LABEL_TYPE;
  }

  /** Exactly when adopting an object of another stack hands it to this one's
      sweep: it carries the marker, and the application's allowlist names it. What
      carries none is never offered. */
  lemma AdoptionOffersExactly(kind: Kind, current: Labels, labels: Labels, stack: string, allowed: seq<string>, name: string)
    requires Declarable(labels, stack)
    ensures Offered(kind, KeepCreated(labels, current), stack) <==> Marked(current)
    ensures NamespaceOf(current) != stack ==>
              (Adoptable(current, labels, allowed, name) && Offered(kind, KeepCreated(labels, current), stack) <==>
               Marked(current) && name in allowed)
  {
    DeclarableIsPlain(labels, stack);
  }

  /** So an object that one stack's deploy created can be offered to another's
      sweep: x makes x_cfg, and y, permitted to, declares it with x's content. */
  lemma AdoptedMayBeOffered()
    ensures var made := StampCreated(map[Installs.LABEL_NAMESPACE := "x"], "now");
            var declared := map[Installs.LABEL_NAMESPACE := "y"];
            Offered(Config, made, "x") && Declarable(declared, "y") && Adoptable(made, declared, ["x_cfg"], "x_cfg") &&
            Offered(Config, KeepCreated(declared, made), "y")
  {
    var made := StampCreated(map[Installs.LABEL_NAMESPACE := "x"], "now");
    var declared := map[Installs.LABEL_NAMESPACE := "y"];
    assert Installs.LABEL_NAMESPACE[4] != Gate.RESERVED_PREFIX[4];
    assert Declarable(declared, "y");
    assert Installs.LABEL_TYPE[4..] == "swarmcli.type" && Installs.LABEL_TYPE !in made;
    AdoptionOffersExactly(Config, made, declared, "y", ["x_cfg"], "x_cfg");
  }

  /** Nothing ever stored is stored again with other data. */
  ghost predicate Extends(a: map<Birth, string>, b: map<Birth, string>) {
    forall p :: p in a ==> p in b && b[p] == a[p]
  }

  /** What others can make of a name: the object there, relabelled short of its
      marker as a new version or left alone, or a new object, which carries the
      marker if another controller's deploy made it. */
  predicate Plausible(now: map<Key, Object>, used: set<Birth>, k: Key, o: Object) {
    if k in now && now[k].id == o.id then
      now[k].data == o.data && (Marked(o.labels) <==> Marked(now[k].labels)) && (now[k].version < o.version || now[k] == o)
    else Birth(k, o.id) !in used
  }

  /** An object is as it was stored, carries the marker exactly when a deploy made
      it, and, if one did, carries the label of the stack that deploy was of or one
      it was since moved to. */
  ghost predicate Accounted(k: Key, o: Object, stored: map<Birth, string>, made: map<Birth, string>, moves: set<Move>) {
    var p := Birth(k, o.id);
    p in stored && stored[p] == o.data && (Marked(o.labels) <==> p in made) &&
    (p in made ==> NamespaceOf(o.labels) == made[p] || Moved(p, NamespaceOf(o.labels), moves))
  }

  /** Every object is accounted for, and what is kept of the past is about births. */
  ghost predicate Known(objects: map<Key, Object>, used: set<Birth>, stored: map<Birth, string>, made: map<Birth, string>,
                        mine: set<Birth>, moves: set<Move>) {
    made.Keys <= used && mine <= used && used == stored.Keys &&
    forall k :: k in objects ==> Accounted(k, objects[k], stored, made, moves)
  }

  ghost predicate Moved(p: Birth, to: string, moves: set<Move>) {
    Move(p, to, true) in moves || Move(p, to, false) in moves
  }

  /** The labels others changed, short of those they made. */
  ghost function Shifts(before: map<Key, Object>, after: map<Key, Object>): set<Move> {
    set k | k in after && k in before && before[k].id == after[k].id &&
            NamespaceOf(before[k].labels) != NamespaceOf(after[k].labels) ::
      Move(Birth(k, after[k].id), NamespaceOf(after[k].labels), false)
  }

  function Born(later: map<Key, Object>): set<Birth> {
    set k | k in later :: Birth(k, later[k].id)
  }

  /** The data of what others stored, and the makers of what is marked of it. */
  ghost function Births(later: map<Key, Object>, used: set<Birth>): map<Birth, string> {
    map p | p in Born(later) && p !in used :: later[p.key].data
  }

  ghost function Makers(later: map<Key, Object>, used: set<Birth>): map<Birth, string> {
    map p | p in Born(later) && p !in used && Marked(later[p.key].labels) :: NamespaceOf(later[p.key].labels)
  }

  lemma StillAccounted(before: map<Key, Object>, later: map<Key, Object>, used: set<Birth>, stored: map<Birth, string>,
                       made: map<Birth, string>, moves: set<Move>, k: Key)
    requires used == stored.Keys && made.Keys <= used && k in later && Plausible(before, used, k, later[k])
    requires k in before ==> Accounted(k, before[k], stored, made, moves)
    ensures Accounted(k, later[k], stored + Births(later, used), made + Makers(later, used), moves + Shifts(before, later))
  {
    hide NamespaceOf, Marked;
    var p := Birth(k, later[k].id);
    if p in used {
      assert k in before && before[k].id == later[k].id;
      if NamespaceOf(before[k].labels) != NamespaceOf(later[k].labels) {
        assert Move(p, NamespaceOf(later[k].labels), false) in Shifts(before, later);
      }
    }
  }

  /** What others did is only added to what is known. */
  lemma OnlyAdded(before: map<Key, Object>, later: map<Key, Object>, used: set<Birth>, stored: map<Birth, string>,
                  made: map<Birth, string>, moves: set<Move>)
    requires used == stored.Keys && made.Keys <= used
    ensures Extends(stored, stored + Births(later, used)) && Keeps(stored, made, made + Makers(later, used))
    ensures OurMoves(moves, moves + Shifts(before, later), {})
    ensures used + Born(later) == (stored + Births(later, used)).Keys && (made + Makers(later, used)).Keys <= used + Born(later)
  {
    hide NamespaceOf, Marked;
  }

  lemma OthersKeep(before: map<Key, Object>, later: map<Key, Object>, used: set<Birth>, stored: map<Birth, string>,
                   made: map<Birth, string>, mine: set<Birth>, moves: set<Move>)
    requires Known(before, used, stored, made, mine, moves) && forall k :: k in later ==> Plausible(before, used, k, later[k])
    ensures Known(later, used + Born(later), stored + Births(later, used), made + Makers(later, used), mine, moves + Shifts(before, later))
    ensures Extends(stored, stored + Births(later, used)) && Keeps(stored, made, made + Makers(later, used))
    ensures OurMoves(moves, moves + Shifts(before, later), {})
  {
    hide Accounted, Births, Makers, Shifts, Extends, Keeps, OurMoves, Plausible, Born;
    OnlyAdded(before, later, used, stored, made, moves);
    forall k | k in later
      ensures Accounted(k, later[k], stored + Births(later, used), made + Makers(later, used), moves + Shifts(before, later))
    {
      StillAccounted(before, later, used, stored, made, moves, k);
    }
  }

  ghost function WithMaker(made: map<Birth, string>, p: Birth, maker: Option<string>): map<Birth, string> {
    if maker.Some? then made[p := maker.value] else made
  }

  /** One more object, marked exactly when a deploy stores it, leaves every object
      accounted for. */
  lemma StoreKeeps(objects: map<Key, Object>, used: set<Birth>, stored: map<Birth, string>, made: map<Birth, string>,
                   moves: set<Move>, o: Object, key: Key, maker: Option<string>)
    requires used == stored.Keys && made.Keys <= used && Birth(key, o.id) !in used
    requires (maker.Some? <==> Marked(o.labels)) && (maker.Some? ==> NamespaceOf(o.labels) == maker.value)
    requires forall k :: k in objects ==> Accounted(k, objects[k], stored, made, moves)
    ensures var p, later := Birth(key, o.id), objects[key := o];
            (forall k :: k in later ==> Accounted(k, later[k], stored[p := o.data], WithMaker(made, p, maker), moves)) &&
            Extends(stored, stored[p := o.data]) && Keeps(stored, made, WithMaker(made, p, maker))
  {
    hide Marked, NamespaceOf;
  }

  lemma StoresNothing(stored: map<Birth, string>, made: map<Birth, string>)
    ensures Extends(stored, stored) && Keeps(stored, made, made)
  {
  }

  class Swarm {
    var objects: map<Key, Object>
    /** Every name and id an object was ever stored under. */
    var used: set<Birth>
    /** The data each was stored with; the stack whose deploy made it, if one did;
        and which of them this controller stored. */
    ghost var stored: map<Birth, string>
    ghost var made: map<Birth, string>
    ghost var mine: set<Birth>
    ghost var moves: set<Move>
    /** How many of this controller's calls failed, and what those that did not wrote. */
    ghost var faults: nat
    ghost var log: seq<Write>

    constructor ()
      ensures Valid() && made == map[] && stored == map[] && mine == {} && moves == {} && faults == 0 && log == []
    {
      objects, used, stored, made, mine, moves, faults, log := map[], {}, map[], map[], {}, {}, 0, [];
    }

    ghost predicate Valid()
      reads this`objects, this`used, this`stored, this`made, this`mine, this`moves
    {
      Known(objects, used, stored, made, mine, moves)
    }

    /** Everybody else, other controllers among them. They create objects under new
        ids, and relabel and remove what is there, but leave the marker as it is;
        nobody can change data. */
    method Others()
      requires Valid()
      modifies this`objects, this`used, this`stored, this`made, this`moves
      ensures Valid() && Extends(old(stored), stored) && Keeps(old(stored), old(made), made) && OurMoves(old(moves), moves, {})
      ensures used >= old(used)
    {
      var next: map<Key, Object> := *;
      var later := map k | k in next && Plausible(objects, used, k, next[k]) :: next[k];
      hide Known, Births, Makers, Shifts, Extends, Keeps, OurMoves, Plausible, Born;
      OthersKeep(objects, later, used, stored, made, mine, moves);
      stored, made, moves := stored + Births(later, used), made + Makers(later, used), moves + Shifts(objects, later);
      objects, used := later, used + Born(later);
    }

    method Inspect(key: Key) returns (works: bool, found: Option<Object>)
      requires Valid()
      modifies this`objects, this`used, this`stored, this`made, this`moves, this`faults
      ensures Valid() && Extends(old(stored), stored) && Keeps(old(stored), old(made), made) && OurMoves(old(moves), moves, {})
      ensures used >= old(used) && faults == old(faults) + if works then 0 else 1
      ensures found == if key in objects then Some(objects[key]) else None
    {
      hide Valid;
      works := Ask();
      found := if key in objects then Some(objects[key]) else None;
    }

    /** Asks for a listing. */
    method Ask() returns (works: bool)
      requires Valid()
      modifies this`objects, this`used, this`stored, this`made, this`moves, this`faults
      ensures Valid() && Extends(old(stored), stored) && Keeps(old(stored), old(made), made) && OurMoves(old(moves), moves, {})
      ensures used >= old(used) && faults == old(faults) + if works then 0 else 1
    {
      hide Valid;
      Others();
      works := *;
      if !works { faults := faults + 1; }
    }

    /** Stores a new object; a failure may yet have stored it. `maker` is the stack
        whose deploy is storing it, if one is: a deploy's objects are marked and
        nothing else is. */
    method Create(key: Key, labels: Labels, data: string, ghost maker: Option<string>) returns (ok: bool)
      requires Valid() && (maker.Some? <==> Marked(labels)) && (maker.Some? ==> NamespaceOf(labels) == maker.value)
      modifies this
      ensures Valid() && Extends(old(stored), stored) && Keeps(old(stored), old(made), made) && OurMoves(old(moves), moves, {})
      ensures NewlyMine(old(stored), old(mine), mine, made, key, maker)
      ensures ok ==> key in objects && objects[key].labels == labels && objects[key].data == data
      ensures ok ==> Birth(key, objects[key].id) in mine && Birth(key, objects[key].id) !in old(mine)
      ensures faults == old(faults) + (if ok then 0 else 1) && log == old(log) + if ok then [Write(key, labels, data)] else []
    {
      hide Valid, Marked, NamespaceOf, Extends, Keeps, NewlyMine;
      Others();
      ghost var s, m := stored, made;
      var id := SomeId();
      ok := Store(key, id, labels, data, maker);
      KeepsOn(old(stored), s, stored, old(made), m, made);
      NewlyMineOn(old(stored), s, old(mine), mine, made, key, maker);
      if ok { log := log + [Write(key, labels, data)]; } else { faults := faults + 1; }
    }

    /** The daemon's part of that. */
    method Store(key: Key, id: nat, labels: Labels, data: string, ghost maker: Option<string>) returns (ok: bool)
      requires Valid() && (maker.Some? <==> Marked(labels)) && (maker.Some? ==> NamespaceOf(labels) == maker.value)
      modifies this`objects, this`used, this`stored, this`made, this`mine
      ensures Valid() && Extends(old(stored), stored) && Keeps(old(stored), old(made), made)
      ensures NewlyMine(old(stored), old(mine), mine, made, key, maker)
      ensures ok ==> key in objects && objects[key].labels == labels && objects[key].data == data
      ensures ok ==> Birth(key, objects[key].id) in mine && Birth(key, objects[key].id) !in old(mine)
    {
      hide Accounted, Marked, NamespaceOf, Extends, Keeps;
      StoresNothing(stored, made);
      var works: bool, clear: bool := *, *;
      if key in objects || Birth(key, id) in used || !works { return false; }
      StoreKeeps(objects, used, stored, made, moves, Object(id, 1, labels, data), key, maker);
      made := WithMaker(made, Birth(key, id), maker);
      used, stored, mine := used + {Birth(key, id)}, stored[Birth(key, id) := data], mine + {Birth(key, id)};
      objects := objects[key := Object(id, 1, labels, data)];
      ok := clear;
    }

    /** Replaces the labels of the object at the version read. Data stays, the
        marker has to, and moving it to another stack takes a permission. */
    method Relabel(key: Key, read: Object, labels: Labels, ghost allowed: seq<string>) returns (ok: bool)
      requires Valid() && Birth(key, read.id) in used && (Marked(labels) <==> Birth(key, read.id) in made)
      requires NamespaceOf(labels) != NamespaceOf(read.labels) ==> key.name in allowed
      requires Birth(key, read.id) in made && NamespaceOf(labels) == NamespaceOf(read.labels) ==>
                 NamespaceOf(labels) == made[Birth(key, read.id)] || Moved(Birth(key, read.id), NamespaceOf(labels), moves)
      modifies this
      ensures Valid() && Extends(old(stored), stored) && Keeps(old(stored), old(made), made) && mine == old(mine)
      ensures OurMoves(old(moves), moves,
                if key.name in allowed then {Move(Birth(key, read.id), NamespaceOf(labels), true)} else {})
      ensures ok ==> key in objects && objects[key].id == read.id && objects[key].labels == labels
      ensures faults == old(faults) + (if ok then 0 else 1) && log == old(log) + if ok then [Write(key, labels, read.data)] else []
    {
      assert Birth(key, read.id) in stored;
      hide Valid, Marked, NamespaceOf;
      Others();
      ok := Rewrite(key, read, labels);
      if ok { log := log + [Write(key, labels, read.data)]; } else { faults := faults + 1; }
    }

    /** The daemon's part of that. */
    method Rewrite(key: Key, read: Object, labels: Labels) returns (ok: bool)
      requires Valid() && Birth(key, read.id) in used && (Marked(labels) <==> Birth(key, read.id) in made)
      requires Birth(key, read.id) in made && NamespaceOf(labels) == NamespaceOf(read.labels) ==>
                 NamespaceOf(labels) == made[Birth(key, read.id)] || Moved(Birth(key, read.id), NamespaceOf(labels), moves)
      modifies this`objects, this`moves
      ensures Valid() && old(moves) <= moves
      ensures forall m :: m in moves && m !in old(moves) ==>
                m == Move(Birth(key, read.id), NamespaceOf(labels), true) && NamespaceOf(labels) != NamespaceOf(read.labels)
      ensures ok ==> key in objects && objects[key].id == read.id && objects[key].labels == labels
    {
      var works: bool, clear: bool := *, *;
      if key !in objects || objects[key].id != read.id || objects[key].version != read.version || !works { return false; }
      ghost var more := if NamespaceOf(labels) == NamespaceOf(read.labels) then {} else {Move(Birth(key, read.id), NamespaceOf(labels), true)};
      var next := objects[key := objects[key].(version := objects[key].version + 1, labels := labels)];
      RelabelKeeps(objects, next, key, stored, made, moves, moves + more);
      hide Accounted, Marked, NamespaceOf;
      moves := moves + more;
      objects := next;
      ok := clear;
    }
  }

  lemma RelabelKeeps(objects: map<Key, Object>, next: map<Key, Object>, key: Key, stored: map<Birth, string>, made: map<Birth, string>,
                     moves: set<Move>, later: set<Move>)
    requires forall k :: k in objects ==> Accounted(k, objects[k], stored, made, moves)
    requires moves <= later && key in next && Accounted(key, next[key], stored, made, later)
    requires forall k :: k in next && k != key ==> k in objects && next[k] == objects[k]
    ensures forall k :: k in next ==> Accounted(k, next[k], stored, made, later)
  {
    forall k | k in next ensures Accounted(k, next[k], stored, made, later) {
      if k != key { assert Accounted(k, objects[k], stored, made, moves); }
    }
  }

  method SomeId() returns (id: nat)
  {
    var n: int := *;
    id := if n < 0 then 0 else n;
  }

  /** What this controller has stored since is new, under that name, and made by a
      deploy of that stack, or by no deploy. */
  ghost predicate NewlyMine(stored: map<Birth, string>, before: set<Birth>, after: set<Birth>, made: map<Birth, string>,
                            key: Key, maker: Option<string>) {
    before <= after && forall p :: p in after && p !in before ==>
      p !in stored && p.key == key && (if maker.Some? then p in made && made[p] == maker.value else p !in made)
  }

  lemma KeepsOn(s: map<Birth, string>, s': map<Birth, string>, s'': map<Birth, string>,
                m: map<Birth, string>, m': map<Birth, string>, m'': map<Birth, string>)
    requires Extends(s, s') && Extends(s', s'') && Keeps(s, m, m') && Keeps(s', m', m'')
    ensures Extends(s, s'') && Keeps(s, m, m'')
  {
  }

  lemma NewlyMineOn(s: map<Birth, string>, s': map<Birth, string>, before: set<Birth>, after: set<Birth>,
                    made: map<Birth, string>, key: Key, maker: Option<string>)
    requires Extends(s, s') && NewlyMine(s', before, after, made, key, maker)
    ensures NewlyMine(s, before, after, made, key, maker)
  {
  }

  /** What a deploy made it made, and what was stored without a maker never gains one. */
  ghost predicate Keeps(stored: map<Birth, string>, before: map<Birth, string>, after: map<Birth, string>) {
    (forall p :: p in before ==> p in after && after[p] == before[p]) &&
    forall p :: p in after && p in stored ==> p in before
  }

  /** The moves this controller made are those before and at most some of `more`. */
  ghost predicate OurMoves(before: set<Move>, after: set<Move>, more: set<Move>) {
    before <= after && forall m :: m in after && m.ours && m !in before ==> m in more
  }

  // --- applying ---

  datatype Applied = Done | DataDiffers | NotAdoptable | Failed

  function AllowedOf(a: Gate.Allow, kind: Kind): seq<string> {
    if kind == Secret then a.secrets else a.configs
  }

  /** What this controller has stored since was new, and is marked as made by a
      deploy of the stack. */
  ghost predicate MadeFor(stack: string, stored: map<Birth, string>, before: set<Birth>, after: set<Birth>, made: map<Birth, string>) {
    before <= after && forall p :: p in after && p !in before ==> p !in stored && p in made && made[p] == stack
  }

  /** What this controller has moved since went to the stack, under an entry of its
      application's allowlist. */
  ghost predicate MovedUnder(stack: string, a: Gate.Allow, before: set<Move>, after: set<Move>) {
    before <= after &&
    forall m :: m in after && m.ours && m !in before ==> m.to == stack && m.birth.key.name in AllowedOf(a, m.birth.key.kind)
  }

  /** A write of what is declared: its name, its labels but for the marker, and, for a
      config, its data. */
  ghost predicate Writes(w: Write, kind: Kind, spec: Spec) {
    w.key == Key(kind, spec.name) && w.labels - {CREATED_LABEL} == spec.labels && (kind == Config ==> w.data == spec.data)
  }

  /** An object of the name has been stored whose data differs from that declared, or
      which the allowlist does not name. */
  ghost predicate Refused(stored: map<Birth, string>, kind: Kind, spec: Spec, a: Gate.Allow) {
    exists id: nat :: Birth(Key(kind, spec.name), id) in stored &&
      ((kind == Config && stored[Birth(Key(kind, spec.name), id)] != spec.data) || spec.name !in if kind == Secret then a.secrets else a.configs)
  }

  /** One declared object. If none of the name was found it is created with the
      marker; otherwise the one found is relabelled as the stack's, keeping the
      marker if it has one and gaining none, so that the stack's sweep is offered
      it exactly when it was marked already; and one of another stack takes an
      allowlist entry. */
  method ApplyOne(sw: Swarm, kind: Kind, spec: Spec, stack: string, a: Gate.Allow, now: string)
    returns (r: Applied, ghost found: Option<Object>)
    requires sw.Valid() && Declarable(spec.labels, stack)
    modifies sw
    ensures sw.Valid() && Extends(old(sw.stored), sw.stored) && Keeps(old(sw.stored), old(sw.made), sw.made)
    ensures MadeFor(stack, old(sw.stored), old(sw.mine), sw.mine, sw.made)
    ensures MovedUnder(stack, a, old(sw.moves), sw.moves)
    ensures r == Done ==> var key := Key(kind, spec.name);
              key in sw.objects && sw.objects[key].labels - {CREATED_LABEL} == spec.labels &&
              (kind == Config ==> sw.objects[key].data == spec.data)
    ensures r == Done && found.None? ==> var key := Key(kind, spec.name);
              Marked(sw.objects[key].labels) && Birth(key, sw.objects[key].id) in sw.mine - old(sw.mine)
    ensures r == Done && found.Some? ==> var key := Key(kind, spec.name);
              sw.objects[key].id == found.value.id && sw.mine == old(sw.mine) &&
              (Offered(kind, sw.objects[key].labels, stack) <==> Marked(found.value.labels)) &&
              (NamespaceOf(found.value.labels) != stack ==> spec.name in if kind == Secret then a.secrets else a.configs)
    ensures r == DataDiffers ==> kind == Config && found.Some? && found.value.data != spec.data
    ensures r == NotAdoptable ==> found.Some? && NamespaceOf(found.value.labels) != stack && spec.name !in (if kind == Secret then a.secrets else a.configs)
    ensures r == DataDiffers || r == NotAdoptable ==> sw.mine == old(sw.mine) && Refused(sw.stored, kind, spec, a)
    ensures sw.faults == old(sw.faults) + if r == Failed then 1 else 0
    ensures if r == Done then |sw.log| == |old(sw.log)| + 1 && old(sw.log) <= sw.log && Writes(sw.log[|old(sw.log)|], kind, spec)
            else sw.log == old(sw.log)
  {
    hide Declarable, Accounted, Extends, Keeps, OurMoves, MadeFor, MovedUnder, NewlyMine;
    DeclarableIsPlain(spec.labels, stack);
    var key := Key(kind, spec.name);
    ghost var s0, m0 := sw.stored, sw.made;
    var works, cur := sw.Inspect(key);
    found := cur;
    ghost var s1, m1, moves1 := sw.stored, sw.made, sw.moves;
    NothingMade(stack, a, s0, sw.mine, sw.made, old(sw.moves), moves1);
    if !works { return Failed, found; }
    if cur.None? {
      var stamped := StampCreated(spec.labels, now);
      assert stamped - {CREATED_LABEL} == spec.labels;
      ghost var mine := sw.mine;
      var ok := sw.Create(key, stamped, spec.data, Some(stack));
      KeepsOn(s0, s1, sw.stored, m0, m1, sw.made);
      OneMade(stack, s0, s1, mine, sw.mine, sw.made, key);
      MovesOn(stack, a, old(sw.moves), moves1, sw.moves, {});
      return if ok then Done else Failed, found;
    }
    ReadIsAccounted(sw, key);
    assert Birth(key, cur.value.id) in sw.stored && sw.stored[Birth(key, cur.value.id)] == cur.value.data;
    if kind == Config && cur.value.data != spec.data { return DataDiffers, found; }
    if !Adoptable(cur.value.labels, spec.labels, AllowedOf(a, kind), spec.name) { return NotAdoptable, found; }
    var ok := Adopt(sw, key, cur.value, spec, stack, AllowedOf(a, kind));
    KeepsOn(s0, s1, sw.stored, m0, m1, sw.made);
    NothingMade(stack, a, s0, sw.mine, sw.made, old(sw.moves), moves1);
    MovesOn(stack, a, old(sw.moves), moves1, sw.moves,
      if spec.name in AllowedOf(a, kind) then {Move(Birth(key, cur.value.id), stack, true)} else {});
    r := if ok then Done else Failed;
  }

  lemma NothingMade(stack: string, a: Gate.Allow, stored: map<Birth, string>, mine: set<Birth>, made: map<Birth, string>,
                    before: set<Move>, after: set<Move>)
    ensures MadeFor(stack, stored, mine, mine, made)
    ensures OurMoves(before, after, {}) ==> MovedUnder(stack, a, before, after)
  {
  }

  lemma OneMade(stack: string, s: map<Birth, string>, s': map<Birth, string>, before: set<Birth>, after: set<Birth>,
                made: map<Birth, string>, key: Key)
    requires Extends(s, s') && NewlyMine(s', before, after, made, key, Some(stack))
    ensures MadeFor(stack, s, before, after, made)
  {
  }

  lemma MovesOn(stack: string, a: Gate.Allow, m: set<Move>, m': set<Move>, m'': set<Move>, more: set<Move>)
    requires OurMoves(m, m', {}) && OurMoves(m', m'', more)
    requires forall x :: x in more ==> x.to == stack && x.birth.key.name in AllowedOf(a, x.birth.key.kind)
    ensures MovedUnder(stack, a, m, m'')
  {
  }

  /** The adoption path: the labels of what was found become the declared ones,
      with the marker it has. */
  method Adopt(sw: Swarm, key: Key, read: Object, spec: Spec, stack: string, allowed: seq<string>) returns (ok: bool)
    requires sw.Valid() && key in sw.objects && sw.objects[key] == read && key.name == spec.name
    requires Declarable(spec.labels, stack) && Adoptable(read.labels, spec.labels, allowed, spec.name)
    modifies sw
    ensures sw.Valid() && Extends(old(sw.stored), sw.stored) && Keeps(old(sw.stored), old(sw.made), sw.made) && sw.mine == old(sw.mine)
    ensures OurMoves(old(sw.moves), sw.moves,
              if spec.name in allowed then {Move(Birth(key, read.id), stack, true)} else {})
    ensures sw.faults == old(sw.faults) + if ok then 0 else 1
    ensures if ok then |sw.log| == |old(sw.log)| + 1 && old(sw.log) <= sw.log && sw.log[|old(sw.log)|].key == key &&
                       sw.log[|old(sw.log)|].labels - {CREATED_LABEL} == spec.labels && sw.log[|old(sw.log)|].data == read.data
            else sw.log == old(sw.log)
    ensures ok ==> key in sw.objects && sw.objects[key].id == read.id && sw.objects[key].data == read.data &&
                   sw.objects[key].labels - {CREATED_LABEL} == spec.labels &&
                   (Offered(key.kind, sw.objects[key].labels, stack) <==> Marked(read.labels))
  {
    DeclarableIsPlain(spec.labels, stack);
    AdoptionOffersExactly(key.kind, read.labels, spec.labels, stack, allowed, spec.name);
    ReadIsAccounted(sw, key);
    var kept := KeepCreated(spec.labels, read.labels);
    assert kept - {CREATED_LABEL} == spec.labels && NamespaceOf(kept) == stack;
    assert Marked(kept) <==> Marked(read.labels);
    hide Declarable, KeepCreated, Offered, Swarm.Valid;
    ok := sw.Relabel(key, read, kept, allowed);
    if ok { ReadIsAccounted(sw, key); }
  }

  lemma ReadIsAccounted(sw: Swarm, key: Key)
    requires sw.Valid() && key in sw.objects
    ensures Accounted(key, sw.objects[key], sw.stored, sw.made, sw.moves) && Birth(key, sw.objects[key].id) in sw.used
  {
  }

  ghost predicate Deployed(sw: Swarm, stored: map<Birth, string>, made: map<Birth, string>, mine: set<Birth>, moves: set<Move>,
                           stack: string, a: Gate.Allow)
    reads sw
  {
    sw.Valid() && Extends(stored, sw.stored) && Keeps(stored, made, sw.made) &&
    MadeFor(stack, stored, mine, sw.mine, sw.made) && MovedUnder(stack, a, moves, sw.moves)
  }

  /** What was written since is the first n declared, one for one and in order. */
  ghost predicate Wrote(before: seq<Write>, after: seq<Write>, kind: Kind, specs: seq<Spec>, n: nat) {
    n <= |specs| && |after| == |before| + n && before <= after &&
    forall i :: 0 <= i < n ==> Writes(after[|before| + i], kind, specs[i])
  }

  lemma WroteNext(before: seq<Write>, now: seq<Write>, after: seq<Write>, kind: Kind, specs: seq<Spec>, n: nat)
    requires Wrote(before, now, kind, specs, n) && n < |specs|
    requires |after| == |now| + 1 && now <= after && Writes(after[|now|], kind, specs[n])
    ensures Wrote(before, after, kind, specs, n + 1)
  {
    hide Writes;
    forall i | 0 <= i < n + 1 ensures Writes(after[|before| + i], kind, specs[i]) {
      if i < n {
        assert after[|before| + i] == now[|before| + i];
      } else {
        assert after[|before| + i] == after[|now|];
      }
    }
  }

  /** applySecrets and applyConfigs: in order, up to the first failure. */
  method ApplyObjects(sw: Swarm, kind: Kind, specs: seq<Spec>, stack: string, a: Gate.Allow, now: string) returns (r: Applied)
    requires sw.Valid() && forall i :: 0 <= i < |specs| ==> Declarable(specs[i].labels, stack)
    modifies sw
    ensures Deployed(sw, old(sw.stored), old(sw.made), old(sw.mine), old(sw.moves), stack, a)
    ensures sw.faults == old(sw.faults) + if r == Failed then 1 else 0
    ensures if r == Done then Wrote(old(sw.log), sw.log, kind, specs, |specs|)
            else exists n :: 0 <= n < |specs| && Wrote(old(sw.log), sw.log, kind, specs, n)
    ensures r == DataDiffers || r == NotAdoptable ==> exists i :: 0 <= i < |specs| && Refused(sw.stored, kind, specs[i], a)
  {
    for i := 0 to |specs|
      invariant sw.faults == old(sw.faults) && Wrote(old(sw.log), sw.log, kind, specs, i)
      invariant Deployed(sw, old(sw.stored), old(sw.made), old(sw.mine), old(sw.moves), stack, a)
    {
      hide Swarm.Valid, Declarable, Refused, Writes;
      ghost var found;
      ghost var before := sw.log;
      r, found := ApplyOne(sw, kind, specs[i], stack, a, now);
      if r != Done { return; }
      WroteNext(old(sw.log), before, sw.log, kind, specs, i);
    }
    r := Done;
  }

  function AsNamed(specs: seq<Spec>): seq<Gate.Named> {
    seq(|specs|, i requires 0 <= i < |specs| => Gate.Named(specs[i].name, specs[i].labels))
  }

  /** The gate lets no declaration through that carries a reserved label, the
      marker among them. */
  lemma AcceptedIsPlain(c: Gate.Context, a: Gate.Allow, s: Gate.Named)
    requires Gate.Accepts(c, a) && (s in c.stack.secrets || s in c.stack.configs)
    ensures !Gate.HasReservedLabel(s.labels) && !Marked(s.labels)
  {
    Gate.AcceptsIsPasses(c, a);
    assert Gate.RESERVED_PREFIX <= CREATED_LABEL;
    hide Gate.NamedLikeARecord, Gate.DeclaredVerdict;
  }

  /** One deploy: what is asked and what the gate sees. Every declaration carries
      the stack's label, which the conversion writes last. */
  datatype Deploy = Deploy(c: Gate.Context, a: Gate.Allow, secrets: seq<Spec>, configs: seq<Spec>, now: string)

  ghost predicate Coherent(d: Deploy) {
    d.c.stack.secrets == AsNamed(d.secrets) && d.c.stack.configs == AsNamed(d.configs) &&
    (forall i :: 0 <= i < |d.secrets| ==> Namespaced(d.secrets[i].labels, d.c.stack.ns)) &&
    forall i :: 0 <= i < |d.configs| ==> Namespaced(d.configs[i].labels, d.c.stack.ns)
  }

  lemma AcceptedIsDeclarable(d: Deploy)
    requires Coherent(d) && Gate.Accepts(d.c, d.a)
    ensures forall i :: 0 <= i < |d.secrets| ==> Declarable(d.secrets[i].labels, d.c.stack.ns)
    ensures forall i :: 0 <= i < |d.configs| ==> Declarable(d.configs[i].labels, d.c.stack.ns)
  {
    hide Gate.Accepts, Gate.HasReservedLabel;
    forall i | 0 <= i < |d.secrets| ensures Declarable(d.secrets[i].labels, d.c.stack.ns) {
      assert AsNamed(d.secrets)[i] in d.c.stack.secrets;
      AcceptedIsPlain(d.c, d.a, AsNamed(d.secrets)[i]);
    }
    forall i | 0 <= i < |d.configs| ensures Declarable(d.configs[i].labels, d.c.stack.ns) {
      assert AsNamed(d.configs)[i] in d.c.stack.configs;
      AcceptedIsPlain(d.c, d.a, AsNamed(d.configs)[i]);
    }
  }

  /** The part of a deploy that touches configs and secrets, behind the gate. */
  method DeployObjects(sw: Swarm, d: Deploy) returns (ok: bool)
    requires sw.Valid() && Coherent(d)
    modifies sw
    ensures Deployed(sw, old(sw.stored), old(sw.made), old(sw.mine), old(sw.moves), d.c.stack.ns, d.a)
    ensures !Gate.Accepts(d.c, d.a) ==> !ok && sw.mine == old(sw.mine) && sw.objects == old(sw.objects) && sw.log == old(sw.log)
    ensures old(sw.faults) <= sw.faults <= old(sw.faults) + 1 && (ok ==> sw.faults == old(sw.faults))
    ensures ok ==> exists mid :: Wrote(old(sw.log), mid, Secret, d.secrets, |d.secrets|) && Wrote(mid, sw.log, Config, d.configs, |d.configs|)
    ensures !ok ==> !Gate.Accepts(d.c, d.a) || sw.faults > old(sw.faults) ||
                    (exists i :: 0 <= i < |d.secrets| && Refused(sw.stored, Secret, d.secrets[i], d.a)) ||
                    exists i :: 0 <= i < |d.configs| && Refused(sw.stored, Config, d.configs[i], d.a)
  {
    var verdict := Gate.RejectForbiddenResources(d.c, d.a);
    hide Gate.Accepts, Swarm.Valid, Declarable, Coherent, Refused, Wrote;
    if verdict != Gate.Pass { return false; }
    AcceptedIsDeclarable(d);
    var r := ApplyObjects(sw, Secret, d.secrets, d.c.stack.ns, d.a, d.now);
    if r != Done { return false; }
    r := ApplyObjects(sw, Config, d.configs, d.c.stack.ns, d.a, d.now);
    ok := r == Done;
  }

  /** A release record is stored without the marker, and is no deploy's. */
  method CreateRecord(sw: Swarm, name: string, data: string, labels: Labels, now: string) returns (ok: bool)
    requires sw.Valid() && !Marked(labels)
    modifies sw
    ensures sw.Valid() && Extends(old(sw.stored), sw.stored) && Keeps(old(sw.stored), old(sw.made), sw.made)
    ensures forall p :: p in sw.mine && p !in old(sw.mine) ==> p !in sw.made
    ensures sw.faults == old(sw.faults) + if ok then 0 else 1
    ensures ok ==> Key(Config, name) in sw.objects && !Marked(sw.objects[Key(Config, name)].labels)
    ensures sw.log == old(sw.log) + if ok then [Write(Key(Config, name), labels["swarmcli.created" := now], data)] else []
  {
    ok := sw.Create(Key(Config, name), labels["swarmcli.created" := now], data, None);
  }

  /** LiveConfigs and LiveSecrets: what the sweep of a stack may consider. It is
      exactly what carries the stack's label and was made by some deploy, release
      records apart: made by a deploy of this stack, or of another and moved here
      since. What no deploy made is never among it. */
  method Live(sw: Swarm, kind: Kind, stack: string) returns (works: bool, out: map<string, nat>)
    requires sw.Valid()
    modifies sw`objects, sw`used, sw`stored, sw`made, sw`moves, sw`faults
    ensures sw.faults == old(sw.faults) + if works then 0 else 1
    ensures sw.Valid() && Extends(old(sw.stored), sw.stored) && Keeps(old(sw.stored), old(sw.made), sw.made)
    ensures OurMoves(old(sw.moves), sw.moves, {})
    ensures forall n :: n in out <==> Key(kind, n) in sw.objects && Offered(kind, sw.objects[Key(kind, n)].labels, stack)
    ensures forall n :: n in out ==> var p := Birth(Key(kind, n), out[n]);
              out[n] == sw.objects[Key(kind, n)].id && p in sw.made && (sw.made[p] == stack || Moved(p, stack, sw.moves))
  {
    hide Accounted, Gate.HasReservedLabel, Extends, Keeps, OurMoves;
    works := sw.Ask();
    out := map[];
    var listed := set k | k in sw.objects && k.kind == kind && Namespaced(sw.objects[k].labels, stack);
    var rest := listed;
    while rest != {}
      invariant rest <= listed
      invariant forall n :: n in out <==> Key(kind, n) in listed - rest && Offered(kind, sw.objects[Key(kind, n)].labels, stack)
      invariant forall n :: n in out ==> Key(kind, n) in sw.objects && out[n] == sw.objects[Key(kind, n)].id
      decreases |rest|
    {
      var k :| k in rest;
      rest := rest - {k};
      assert k == Key(kind, k.name);
      if kind == Config && MayBeReleaseRecord(sw.objects[k].labels) { continue; }
      if !Marked(sw.objects[k].labels) { continue; }
      out := out[k.name := sw.objects[k].id];
    }
    forall n | n in out
      ensures var p := Birth(Key(kind, n), out[n]); p in sw.made && (sw.made[p] == stack || Moved(p, stack, sw.moves))
    {
      ReadIsAccounted(sw, Key(kind, n));
      MarkedIsMade(sw, Key(kind, n), stack);
    }
  }

  /** An object with the marker and the stack's label was made for the stack, or
      for another and moved. */
  lemma MarkedIsMade(sw: Swarm, key: Key, stack: string)
    requires key in sw.objects && Accounted(key, sw.objects[key], sw.stored, sw.made, sw.moves)
    requires Marked(sw.objects[key].labels) && Namespaced(sw.objects[key].labels, stack)
    ensures var p := Birth(key, sw.objects[key].id); p in sw.made && (sw.made[p] == stack || Moved(p, stack, sw.moves))
  {
  }

  /** Some deploy of the run is of the stack and permits the move. */
  ghost predicate PermittedBy(deploys: seq<Deploy>, n: nat, m: Move)
    requires n <= |deploys|
  {
    exists i :: 0 <= i < n && m.to == deploys[i].c.stack.ns &&
      match m.birth.key.kind {
        case Secret => m.birth.key.name in deploys[i].a.secrets
        case Config => m.birth.key.name in deploys[i].a.configs
      }
  }

  /** Over every run of deploys, whatever they declare, whatever fails and whatever
      others do in between: a stored object keeps its data; what a deploy of this
      controller stored carries the marker for good, and what was stored without a
      maker never gains one, however often it is adopted; and this controller moved
      an object to a stack only under an allowlist entry of a deploy of that stack. */
  method DeployRepeatedly(sw: Swarm, deploys: seq<Deploy>)
    requires sw.Valid() && forall i :: 0 <= i < |deploys| ==> Coherent(deploys[i])
    modifies sw
    ensures sw.Valid() && Extends(old(sw.stored), sw.stored) && Keeps(old(sw.stored), old(sw.made), sw.made)
    ensures forall p :: p in sw.mine && p !in old(sw.mine) ==> p !in old(sw.stored) && p in sw.made
    ensures forall m :: m in sw.moves && m.ours && m !in old(sw.moves) ==> PermittedBy(deploys, |deploys|, m)
    ensures forall k :: k in sw.objects && Birth(k, sw.objects[k].id) in sw.mine - old(sw.mine) ==> Marked(sw.objects[k].labels)
    ensures forall k :: k in sw.objects && Birth(k, sw.objects[k].id) in old(sw.stored) ==>
              (sw.objects[k].data == old(sw.stored)[Birth(k, sw.objects[k].id)] &&
               (Marked(sw.objects[k].labels) <==> Birth(k, sw.objects[k].id) in old(sw.made)))
  {
    for i := 0 to |deploys|
      invariant sw.Valid() && Extends(old(sw.stored), sw.stored) && Keeps(old(sw.stored), old(sw.made), sw.made)
      invariant old(sw.mine) <= sw.mine && old(sw.moves) <= sw.moves
      invariant forall p :: p in sw.mine && p !in old(sw.mine) ==> p !in old(sw.stored) && p in sw.made
      invariant forall m :: m in sw.moves && m.ours && m !in old(sw.moves) ==> PermittedBy(deploys, i, m)
    {
      hide Swarm.Valid, Coherent;
      sw.Others();
      ghost var before := sw.moves;
      var ok := DeployObjects(sw, deploys[i]);
      forall m | m in sw.moves && m.ours && m !in old(sw.moves) ensures PermittedBy(deploys, i + 1, m) {
        if m in before { assert PermittedBy(deploys, i, m); }
      }
    }
    sw.Others();
  }
}
