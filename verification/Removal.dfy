/** Taking a release down (backend/backend.go, prune/prune.go).

    The daemon answers arbitrarily: a listing may fail, a removal may fail with
    or without having worked, and between any two calls others create and delete
    resources. What holds regardless is that a release's records go only after
    everything that was there to be removed has gone. */
module Removal {
  import opened Text

  datatype Kind = Service | Config | Secret | Network

  /** A swarm resource: its kind, the stack its label names, and whether its
      labels may be a release record's. */
  datatype Resource = Resource(kind: Kind, stack: string, record: bool)

  /** A volume has a node and a name; the id tells it from a later volume there. */
  datatype Slot = Slot(node: string, name: string)
  datatype Volume = Volume(id: nat, stack: string)
  datatype Held = Held(slot: Slot, volume: Volume)

  /** A cluster volume as a node's daemon lists it, by its own id and name. The
      daemon lists every one, whatever its labels. */
  datatype Cluster = Cluster(node: string, id: string, name: string)

  /** The swarm at one moment. Ids are never given out twice. */
  datatype World = World(resources: map<nat, Resource>, volumes: map<Slot, Volume>, clusters: set<Cluster>, used: set<nat>)

  ghost predicate WellFormed(w: World) {
    w.resources.Keys <= w.used && forall s :: s in w.volumes ==> w.volumes[s].id in w.used
  }

  /** b can come after a: whatever is in b and not in a is new. */
  ghost predicate Follows(a: World, b: World) {
    WellFormed(b) && a.used <= b.used &&
    (forall id :: id in b.resources && id in a.used ==> id in a.resources && b.resources[id] == a.resources[id]) &&
    (forall s :: s in b.volumes && b.volumes[s].id in a.used ==> s in a.volumes && a.volumes[s] == b.volumes[s])
  }

  /** What removing a stack is to remove: everything with its label, except a
      config that may be a release record. */
  predicate OfStack(r: Resource, stack: string) {
    r.stack == stack && !(r.kind == Config && r.record)
  }

  /** Nothing of the stack that was there in a is there in b. */
  ghost predicate Cleared(a: World, b: World, stack: string) {
    forall id :: id in a.resources && OfStack(a.resources[id], stack) ==> id !in b.resources
  }

  ghost predicate KindCleared(a: World, b: World, stack: string, kind: Kind) {
    forall id :: id in a.resources && OfStack(a.resources[id], stack) && a.resources[id].kind == kind ==> id !in b.resources
  }

  /** strings.HasPrefix(name, release + "_"). */
  predicate WithinRelease(name: string, release: string) {
    release + "_" <= name
  }

  /** A removal by name could reach a cluster volume instead: one of the name,
      without regard to case, or one whose id the name begins. */
  predicate Shadowed(w: World, s: Slot) {
    exists c :: c in w.clusters && c.node == s.node && (Fold(c.name) == Fold(s.name) || s.name <= c.id)
  }

  /** The node's volumes with the stack's label that are, or are not, shadowed. */
  ghost function Labelled(w: World, node: string, stack: string, shadowed: bool): set<Held> {
    set s | s in w.volumes && s.node == node && w.volumes[s].stack == stack && Shadowed(w, s) == shadowed ::
      Held(s, w.volumes[s])
  }

  /** Of the release's own volumes that were on the node in a, what is still there
      in b is among `left`. */
  ghost predicate Purged(a: World, b: World, release: string, node: string, left: set<Held>) {
    forall s :: s in a.volumes && s.node == node && a.volumes[s].stack == release && release + "_" <= s.name ==>
      !(s in b.volumes && b.volumes[s] == a.volumes[s]) || Held(s, a.volumes[s]) in left
  }

  lemma FollowsTransitive(a: World, b: World, c: World)
    requires Follows(a, b) && Follows(b, c)
    ensures Follows(a, c)
  {
  }

  /** What is gone stays gone. */
  lemma ClearedStays(a: World, b: World, c: World, stack: string, kind: Kind)
    requires WellFormed(a) && Follows(a, b) && Follows(b, c)
    ensures KindCleared(a, b, stack, kind) || KindCleared(b, c, stack, kind) ==> KindCleared(a, c, stack, kind)
    ensures Cleared(a, b, stack) || Cleared(b, c, stack) ==> Cleared(a, c, stack)
  {
  }

  lemma PurgedStays(a: World, b: World, c: World, release: string, node: string, left: set<Held>, more: set<Held>)
    requires WellFormed(a) && Follows(a, b) && Follows(b, c) && left <= more
    ensures Purged(a, b, release, node, left) || Purged(b, c, release, node, left) ==> Purged(a, c, release, node, more)
  {
  }

  class Daemon {
    var resources: map<nat, Resource>
    var volumes: map<Slot, Volume>
    var clusters: set<Cluster>
    var used: set<nat>
    /** The releases with records. Only Uninstall deletes them. */
    var records: set<string>
    /** What was removed on this caller's account, how many of its calls failed,
        and how many of those were listings or attempts to reach a node. */
    ghost var removed: map<nat, Resource>
    ghost var faults: nat
    ghost var unlisted: nat
    ghost var unreached: nat
    /** The volumes removed on its account, and those a listing found shadowed. */
    ghost var freed: set<Held>
    ghost var shadowed: set<Held>

    constructor ()
      ensures WellFormed(Now())
    {
      resources, volumes, clusters, used, records := map[], map[], {}, {}, {};
      removed, faults, unlisted, unreached, freed, shadowed := map[], 0, 0, 0, {}, {};
    }

    ghost function Now(): World
      reads this`resources, this`volumes, this`clusters, this`used
    {
      World(resources, volumes, clusters, used)
    }

    /** Everything else that uses the swarm, between two calls. */
    method Others()
      requires WellFormed(Now())
      modifies this`resources, this`volumes, this`clusters, this`used, this`records
      ensures Follows(old(Now()), Now()) && records >= old(records)
    {
      var gone: set<nat>, lost: set<Slot> := *, *;
      var made: map<nat, Resource>, filled: map<Slot, Volume>, recorded: set<string> := *, *, *;
      clusters := *;
      resources := (resources - gone) + (map id | id in made && id !in used :: made[id]);
      volumes := (volumes - lost) + (map s | s in filled && filled[s].id !in used :: filled[s]);
      used := used + made.Keys + (set s | s in filled :: filled[s].id);
      records := records + recorded;
    }

    /** A listing of one kind with the stack's label. */
    method List(kind: Kind, stack: string) returns (ok: bool, ids: set<nat>)
      requires WellFormed(Now())
      modifies this`resources, this`volumes, this`clusters, this`used, this`records, this`faults, this`unlisted
      ensures Follows(old(Now()), Now()) && records >= old(records)
      ensures faults >= old(faults) && (!ok ==> faults > old(faults))
      ensures unlisted == old(unlisted) + if ok then 0 else 1
      ensures ok ==> ids == set id | id in resources && resources[id].kind == kind && resources[id].stack == stack
    {
      Others();
      ok := *;
      ids := set id | id in resources && resources[id].kind == kind && resources[id].stack == stack;
      if !ok { faults, unlisted := faults + 1, unlisted + 1; }
    }

    /** A removal. An error says nothing about whether it worked; success, or a
        not-found, means that the resource is gone. */
    method Remove(id: nat, ghost stack: string) returns (gone: bool)
      requires WellFormed(Now())
      requires id in used && (id in resources ==> OfStack(resources[id], stack))
      modifies this`resources, this`volumes, this`clusters, this`used, this`records, this`faults, this`removed
      ensures Follows(old(Now()), Now()) && records >= old(records)
      ensures gone ==> id !in resources
      ensures faults >= old(faults) && (!gone ==> faults > old(faults))
      ensures OnlyOfStack(old(removed), removed, stack)
    {
      Others();
      var works: bool, clear: bool := *, *;
      if id in resources && works {
        removed := removed[id := resources[id]];
        resources := resources - {id};
      }
      gone := id !in resources && clear;
      if !gone { faults := faults + 1; }
    }

    /** StackVolumes: a volume that is shadowed is left out, so that no removal by
        name reaches the cluster volume. */
    method ListVolumes(node: string, stack: string) returns (ok: bool, names: set<string>, ghost left: set<Held>)
      requires WellFormed(Now())
      modifies this`resources, this`volumes, this`clusters, this`used, this`records, this`shadowed, this`faults, this`unlisted
      ensures Follows(old(Now()), Now()) && records >= old(records)
      ensures faults - old(faults) == unlisted - old(unlisted) == if ok then 0 else 1
      ensures ok ==> forall n :: n in names <==>
                Slot(node, n) in volumes && volumes[Slot(node, n)].stack == stack && !Shadowed(Now(), Slot(node, n))
      ensures left == Labelled(Now(), node, stack, true) && shadowed == old(shadowed) + left
    {
      Others();
      ok := *;
      if !ok { faults, unlisted := faults + 1, unlisted + 1; }
      var w := World(resources, volumes, clusters, used);
      names := set s | s in volumes && s.node == node && volumes[s].stack == stack && !Shadowed(w, s) :: s.name;
      left := Labelled(Now(), node, stack, true);
      shadowed := shadowed + left;
      assert forall s :: s in volumes && s.node == node ==> s == Slot(node, s.name);
    }

    /** removeLocalVolume for a stack's volume: gone, left because the name now
        answers with another's, or an error, which says nothing about whether the
        removal worked. */
    method RemoveVolume(node: string, name: string, stack: string) returns (ok: bool)
      requires WellFormed(Now())
      modifies this`resources, this`volumes, this`clusters, this`used, this`records, this`freed, this`faults
      ensures Follows(old(Now()), Now()) && records >= old(records)
      ensures faults == old(faults) + if ok then 0 else 1
      ensures ok ==> var s := Slot(node, name); s in volumes ==> volumes[s].stack != stack
      ensures FreedOnly(old(freed), freed, node, {name}, stack)
    {
      Others();
      var s := Slot(node, name);
      var answers: bool, works: bool, clear: bool := *, *, *;
      ok := answers;
      if answers && s in volumes && volumes[s].stack == stack {
        if works {
          freed := freed + {Held(s, volumes[s])};
          volumes := volumes - {s};
        }
        ok := works && clear;
      }
      if !ok { faults := faults + 1; }
    }

    /** The registry connects to a node it named. */
    method Reach(node: string) returns (ok: bool)
      requires WellFormed(Now())
      modifies this`resources, this`volumes, this`clusters, this`used, this`records, this`faults, this`unreached
      ensures Follows(old(Now()), Now()) && records >= old(records)
      ensures faults - old(faults) == unreached - old(unreached) == if ok then 0 else 1
    {
      Others();
      ok := *;
      if !ok { faults, unreached := faults + 1, unreached + 1; }
    }

    /** charts.Engine.Uninstall after the stack is gone: this release's records,
        with whatever error. */
    method Uninstall(release: string) returns (ok: bool)
      requires WellFormed(Now())
      modifies this`resources, this`volumes, this`clusters, this`used, this`records, this`faults
      ensures Follows(old(Now()), Now()) && records >= old(records) - {release}
      ensures ok ==> release !in records
      ensures faults == old(faults) + if ok then 0 else 1
    {
      Others();
      var works: bool, clear: bool := *, *;
      if works { records := records - {release}; }
      ok := works && clear;
      if !ok { faults := faults + 1; }
    }
  }

  /** What was freed since is the stack's, on the node and under one of the names. */
  ghost predicate FreedOnly(before: set<Held>, after: set<Held>, node: string, names: set<string>, stack: string) {
    before <= after &&
    forall h :: h in after && h !in before ==> h.slot.node == node && h.slot.name in names && h.volume.stack == stack
  }

  /** What was freed since is the release's, by its label and by its name. */
  ghost predicate FreedWithin(before: set<Held>, after: set<Held>, release: string) {
    before <= after && forall h :: h in after && h !in before ==> h.volume.stack == release && release + "_" <= h.slot.name
  }

  /** Every resource removed since belongs to the stack and is no release record. */
  ghost predicate OnlyOfStack(before: map<nat, Resource>, after: map<nat, Resource>, stack: string) {
    forall id :: id in after ==> (id in before && before[id] == after[id]) || OfStack(after[id], stack)
  }

  /** Lists one kind and removes what it found, collecting failures. */
  method RemoveKind(d: Daemon, kind: Kind, stack: string) returns (listed: bool, refused: bool)
    requires WellFormed(d.Now())
    modifies d
    ensures Follows(old(d.Now()), d.Now()) && d.records >= old(d.records)
    ensures listed && !refused ==> KindCleared(old(d.Now()), d.Now(), stack, kind)
    ensures d.faults >= old(d.faults) && (!listed || refused ==> d.faults > old(d.faults))
    ensures d.unlisted == old(d.unlisted) + (if listed then 0 else 1) && d.shadowed == old(d.shadowed) && d.freed == old(d.freed)
    ensures OnlyOfStack(old(d.removed), d.removed, stack)
  {
    hide Follows, KindCleared;
    ghost var start := d.Now();
    var ids;
    listed, ids := d.List(kind, stack);
    refused := false;
    if !listed { return; }
    ghost var found := d.Now();
    var todo := Removable(d, ids);
    ghost var all := todo;
    ListedIsAll(start, found, stack, kind, todo);
    FollowsSelf(found);
    while todo != {}
      invariant todo <= all && Follows(found, d.Now()) && WellFormed(d.Now()) && d.records >= old(d.records)
      invariant !refused ==> forall id :: id in all - todo ==> id !in d.resources
      invariant d.faults >= old(d.faults) && (refused ==> d.faults > old(d.faults)) && d.unlisted == old(d.unlisted)
      invariant d.shadowed == old(d.shadowed) && d.freed == old(d.freed) && OnlyOfStack(old(d.removed), d.removed, stack)
      decreases |todo|
    {
      var id :| id in todo;
      ghost var before := d.Now();
      StillOfStack(found, before, id, stack);
      var gone := d.Remove(id, stack);
      RemovedStay(found, before, d.Now(), all - todo);
      if !gone { refused := true; }
      todo := todo - {id};
    }
    FollowsTransitive(start, found, d.Now());
    if !refused { KindGone(start, found, d.Now(), stack, kind, all); }
  }

  /** The listed ids that may be removed: not those that may be release records. */
  method Removable(d: Daemon, ids: set<nat>) returns (todo: set<nat>)
    requires ids <= d.resources.Keys
    ensures todo == set id | id in ids && !(d.resources[id].kind == Config && d.resources[id].record)
  {
    todo := {};
    var rest := ids;
    while rest != {}
      invariant rest <= ids
      invariant todo == set id | id in ids - rest && !(d.resources[id].kind == Config && d.resources[id].record)
      decreases |rest|
    {
      var id :| id in rest;
      if !(d.resources[id].kind == Config && d.resources[id].record) { todo := todo + {id}; }
      rest := rest - {id};
    }
  }

  lemma FollowsSelf(w: World)
    requires WellFormed(w)
    ensures Follows(w, w)
  {
  }

  lemma ListedIsAll(start: World, listed: World, stack: string, kind: Kind, todo: set<nat>)
    requires WellFormed(start) && Follows(start, listed)
    requires todo == set id | id in listed.resources && listed.resources[id].kind == kind && OfStack(listed.resources[id], stack)
    ensures WellFormed(listed) && forall id :: id in todo ==> id in listed.used
  {
  }

  lemma StillOfStack(listed: World, now: World, id: nat, stack: string)
    requires WellFormed(listed) && Follows(listed, now)
    requires id in listed.resources && OfStack(listed.resources[id], stack)
    ensures id in now.used && (id in now.resources ==> OfStack(now.resources[id], stack))
  {
  }

  lemma RemovedStay(listed: World, before: World, after: World, done: set<nat>)
    requires WellFormed(listed) && Follows(listed, before) && Follows(before, after)
    requires done <= listed.used
    ensures Follows(listed, after) && WellFormed(after)
    ensures forall id :: id in done && id !in before.resources ==> id !in after.resources
  {
  }

  lemma KindGone(start: World, listed: World, end: World, stack: string, kind: Kind, all: set<nat>)
    requires WellFormed(start) && Follows(start, listed) && Follows(listed, end)
    requires all == set id | id in listed.resources && listed.resources[id].kind == kind && OfStack(listed.resources[id], stack)
    requires forall id :: id in all ==> id !in end.resources
    ensures KindCleared(start, end, stack, kind)
  {
  }

  /** Something that removing the stack is to remove is there. */
  ghost predicate Remains(w: World, stack: string) {
    exists id :: id in w.resources && OfStack(w.resources[id], stack)
  }

  /** stackRemains for one kind: a listing that finds something says that it is
      there, and an empty listing means that what was there of
      that kind has gone, since ids do not come back. */
  method KindRemains(d: Daemon, kind: Kind, stack: string, ghost start: World) returns (ok: bool, left: bool)
    requires WellFormed(start) && Follows(start, d.Now())
    modifies d
    ensures Follows(old(d.Now()), d.Now()) && Follows(start, d.Now()) && d.records >= old(d.records)
    ensures ok && !left ==> KindCleared(start, d.Now(), stack, kind)
    ensures ok && left ==> Remains(d.Now(), stack)
    ensures d.unlisted == old(d.unlisted) + if ok then 0 else 1
    ensures d.removed == old(d.removed) && d.shadowed == old(d.shadowed) && d.freed == old(d.freed) && d.faults >= old(d.faults)
  {
    ghost var before := d.Now();
    var ids;
    ok, ids := d.List(kind, stack);
    FollowsTransitive(start, before, d.Now());
    left := false;
    if !ok { return; }
    var todo := Removable(d, ids);
    left := todo != {};
    if left {
      var id :| id in todo;
      assert OfStack(d.resources[id], stack);
    }
    if !left { KindGone(start, d.Now(), d.Now(), stack, kind, {}); }
  }

  method StackRemains(d: Daemon, stack: string, ghost start: World) returns (ok: bool, left: bool)
    requires WellFormed(start) && Follows(start, d.Now())
    modifies d
    ensures Follows(old(d.Now()), d.Now()) && Follows(start, d.Now()) && d.records >= old(d.records)
    ensures ok && !left ==> Cleared(start, d.Now(), stack)
    ensures ok && left ==> Remains(d.Now(), stack)
    ensures d.unlisted == old(d.unlisted) + if ok then 0 else 1
    ensures d.removed == old(d.removed) && d.shadowed == old(d.shadowed) && d.freed == old(d.freed) && d.faults >= old(d.faults)
  {
    hide Follows, KindCleared, Remains;
    ghost var w0 := d.Now();
    ok, left := KindRemains(d, Service, stack, start);
    ghost var w1 := d.Now();
    if !ok || left { return; }
    ok, left := KindRemains(d, Config, stack, start);
    ghost var w2 := d.Now();
    FollowsTransitive(w0, w1, w2);
    if !ok || left { return; }
    ok, left := KindRemains(d, Secret, stack, start);
    ghost var w3 := d.Now();
    FollowsTransitive(w0, w2, w3);
    if !ok || left { return; }
    ok, left := KindRemains(d, Network, stack, start);
    ghost var w4 := d.Now();
    FollowsTransitive(w0, w3, w4);
    if ok && !left {
      ClearedStays(start, w1, w4, stack, Service) by { FollowsTransitive(w1, w2, w4) by { FollowsTransitive(w2, w3, w4); } }
      ClearedStays(start, w2, w4, stack, Config) by { FollowsTransitive(w2, w3, w4); }
      ClearedStays(start, w3, w4, stack, Secret);
      AllKindsCleared(start, w4, stack);
    }
  }

  lemma AllKindsCleared(a: World, b: World, stack: string)
    requires KindCleared(a, b, stack, Service) && KindCleared(a, b, stack, Config)
    requires KindCleared(a, b, stack, Secret) && KindCleared(a, b, stack, Network)
    ensures Cleared(a, b, stack)
  {
  }

  datatype Removed = Done | NoName | OwnStack | Failed

  /** RemoveStack: success means that everything of the stack that was there has
      gone, whatever the calls reported; nothing of another stack, and no release
      record, is ever removed. It fails only when some call did, and, short of a
      listing that failed, only when something of the stack is still there: a
      failure that leaves nothing behind is not one. `own` is the controller's own
      namespace, and whether it could be read. */
  method RemoveStack(d: Daemon, stack: string, own: (bool, string)) returns (r: Removed)
    requires WellFormed(d.Now())
    modifies d
    ensures Follows(old(d.Now()), d.Now()) && d.records >= old(d.records)
    ensures r == NoName <==> stack == ""
    ensures r == OwnStack <==> stack != "" && own == (true, stack)
    ensures r == Done ==> Cleared(old(d.Now()), d.Now(), stack)
    ensures d.faults >= old(d.faults) && (r == Failed && own.0 ==> d.faults > old(d.faults))
    ensures r == Failed && own.0 && d.unlisted == old(d.unlisted) ==> Remains(d.Now(), stack)
    ensures OnlyOfStack(old(d.removed), d.removed, stack)
    ensures stack == "" || !own.0 || own == (true, stack) ==> d.Now() == old(d.Now()) && r != Done
    ensures d.shadowed == old(d.shadowed) && d.freed == old(d.freed)
  {
    hide Follows, KindCleared, OnlyOfStack, Remains, Cleared;
    FollowsSelf(d.Now());
    assert OnlyOfStack(d.removed, d.removed, stack) by { NothingRemoved(d.removed, stack); }
    if stack == "" { return NoName; }
    if !own.0 { return Failed; }
    if own.1 == stack { return OwnStack; }
    ghost var w0 := d.Now();
    ghost var m0 := d.removed;
    var listed, a := RemoveKind(d, Service, stack);
    ghost var w1 := d.Now();
    FollowsWellFormed(w0, w1);
    ghost var m1 := d.removed;
    if !listed { return Failed; }
    var b;
    listed, b := RemoveKind(d, Config, stack);
    ghost var w2 := d.Now();
    FollowsWellFormed(w1, w2);
    ghost var m2 := d.removed;
    FollowsTransitive(w0, w1, w2);
    OnlyTransitive(m0, m1, m2, stack);
    if !listed { return Failed; }
    var c;
    listed, c := RemoveKind(d, Secret, stack);
    ghost var w3 := d.Now();
    FollowsWellFormed(w2, w3);
    ghost var m3 := d.removed;
    FollowsTransitive(w0, w2, w3);
    OnlyTransitive(m0, m2, m3, stack);
    if !listed { return Failed; }
    var e;
    listed, e := RemoveKind(d, Network, stack);
    ghost var w4 := d.Now();
    FollowsWellFormed(w3, w4);
    FollowsTransitive(w0, w3, w4);
    OnlyTransitive(m0, m3, d.removed, stack);
    if !listed { return Failed; }
    if !a && !b && !c && !e {
      AllRemoved(w0, w1, w2, w3, w4, stack);
      return Done;
    }
    var ok, left := StackRemains(d, stack, w0);
    return if ok && !left then Done else Failed;
  }

  lemma NothingRemoved(m: map<nat, Resource>, stack: string)
    ensures OnlyOfStack(m, m, stack)
  {
  }

  lemma OnlyTransitive(a: map<nat, Resource>, b: map<nat, Resource>, c: map<nat, Resource>, stack: string)
    requires OnlyOfStack(a, b, stack) && OnlyOfStack(b, c, stack)
    ensures OnlyOfStack(a, c, stack)
  {
  }

  lemma AllRemoved(w0: World, w1: World, w2: World, w3: World, w4: World, stack: string)
    requires WellFormed(w0) && Follows(w0, w1) && Follows(w1, w2) && Follows(w2, w3) && Follows(w3, w4)
    requires KindCleared(w0, w1, stack, Service) && KindCleared(w1, w2, stack, Config)
    requires KindCleared(w2, w3, stack, Secret) && KindCleared(w3, w4, stack, Network)
    ensures Cleared(w0, w4, stack)
  {
  }

  // --- volumes ---

  /** What failed since: a listing, a node that was to be reached, or a removal
      more often than patience allows. */
  ghost predicate GaveUp(d: Daemon, faults: nat, unlisted: nat, unreached: nat, patience: nat)
    reads d
  {
    d.unlisted > unlisted || d.unreached > unreached || d.faults > faults + patience
  }

  /** settle: retries while the volume is in use. Its patience is how often it
      tries again before its time is up or the caller is cancelled, and it gives up
      only when that is spent. */
  method Settle(d: Daemon, node: string, name: string, release: string, patience: nat) returns (ok: bool)
    requires WellFormed(d.Now())
    modifies d
    ensures Follows(old(d.Now()), d.Now()) && d.records >= old(d.records)
    ensures ok ==> var s := Slot(node, name); s in d.volumes ==> d.volumes[s].stack != release
    ensures if ok then old(d.faults) <= d.faults <= old(d.faults) + patience else d.faults == old(d.faults) + patience + 1
    ensures d.removed == old(d.removed) && d.shadowed == old(d.shadowed)
    ensures d.unlisted == old(d.unlisted) && d.unreached == old(d.unreached)
    ensures FreedOnly(old(d.freed), d.freed, node, {name}, release)
  {
    ok := d.RemoveVolume(node, name, release);
    var tries := 0;
    while !ok && tries < patience
      invariant Follows(old(d.Now()), d.Now()) && d.records >= old(d.records) && tries <= patience
      invariant d.removed == old(d.removed) && d.shadowed == old(d.shadowed)
      invariant d.unlisted == old(d.unlisted) && d.unreached == old(d.unreached)
      invariant d.faults == old(d.faults) + tries + if ok then 0 else 1
      invariant FreedOnly(old(d.freed), d.freed, node, {name}, release)
      invariant ok ==> var s := Slot(node, name); s in d.volumes ==> d.volumes[s].stack != release
    {
      ok := d.RemoveVolume(node, name, release);
      tries := tries + 1;
    }
  }

  /** withinRelease: what a purge may remove of what was listed. */
  method OwnVolumes(release: string, names: set<string>) returns (own: set<string>)
    ensures own == set n | n in names && release + "_" <= n
  {
    own := {};
    var rest := names;
    while rest != {}
      invariant rest <= names && own == set n | n in names - rest && WithinRelease(n, release)
      decreases |rest|
    {
      var n :| n in rest;
      if WithinRelease(n, release) { own := own + {n}; }
      rest := rest - {n};
    }
  }

  /** One slot no longer holds the volume it held. */
  ghost predicate SlotFreed(a: World, b: World, s: Slot, release: string) {
    s in a.volumes && a.volumes[s].stack == release ==> !(s in b.volumes && b.volumes[s] == a.volumes[s])
  }

  lemma FreedStays(a: World, b: World, c: World, node: string, names: set<string>, release: string)
    requires WellFormed(a) && Follows(a, b) && Follows(b, c)
    ensures forall n :: n in names && SlotFreed(a, b, Slot(node, n), release) ==> SlotFreed(a, c, Slot(node, n), release)
    ensures Follows(a, c)
  {
  }

  lemma NodePurged(start: World, listed: World, end: World, node: string, own: set<string>, release: string)
    requires WellFormed(start) && Follows(start, listed) && Follows(listed, end)
    requires forall s :: (s in listed.volumes && s.node == node && listed.volumes[s].stack == release &&
                          release + "_" <= s.name && !Shadowed(listed, s)) ==> s.name in own
    requires forall n :: n in own ==> SlotFreed(listed, end, Slot(node, n), release)
    ensures Purged(start, end, release, node, Labelled(listed, node, release, true))
  {
    hide Shadowed;
    forall s | s in start.volumes && s.node == node && start.volumes[s].stack == release && release + "_" <= s.name
      ensures !(s in end.volumes && end.volumes[s] == start.volumes[s]) ||
              Held(s, start.volumes[s]) in Labelled(listed, node, release, true)
    {
      assert s == Slot(node, s.name);
      if s in listed.volumes && listed.volumes[s] == start.volumes[s] && !Shadowed(listed, s) {
        assert s.name in own;
      }
    }
  }

  /** Each of these was found, at some moment between a and b, to be the release's
      and shadowed. */
  ghost predicate FoundShadowed(a: World, b: World, release: string, left: set<Held>) {
    forall h :: h in left ==> WasShadowed(a, b, release, h)
  }

  ghost predicate WasShadowed(a: World, b: World, release: string, h: Held) {
    exists w :: Follows(a, w) && Follows(w, b) && h in Labelled(w, h.slot.node, release, true)
  }

  lemma FoundOnce(a: World, w: World, b: World, release: string, node: string)
    requires Follows(a, w) && Follows(w, b)
    ensures FoundShadowed(a, b, release, Labelled(w, node, release, true))
  {
    hide Follows, Shadowed;
  }

  lemma FoundNothing(a: World, b: World, release: string)
    ensures FoundShadowed(a, b, release, {})
  {
  }

  /** What was found earlier or later was found over the whole time. */
  lemma FoundWider(a: World, b: World, c: World, release: string, left: set<Held>, more: set<Held>)
    requires Follows(a, b) && Follows(b, c)
    ensures FoundShadowed(a, b, release, left) && FoundShadowed(b, c, release, more) ==> FoundShadowed(a, c, release, left + more)
  {
    hide Follows, Labelled;
    if FoundShadowed(a, b, release, left) && FoundShadowed(b, c, release, more) {
      forall h | h in left + more ensures WasShadowed(a, c, release, h) {
        if h in left {
          var w :| Follows(a, w) && Follows(w, b) && h in Labelled(w, h.slot.node, release, true);
          FollowsTransitive(w, b, c);
        } else {
          var w :| Follows(b, w) && Follows(w, c) && h in Labelled(w, h.slot.node, release, true);
          FollowsTransitive(a, b, w);
        }
      }
    }
  }

  /** One node's share of a purge. On success what is left of the release's own
      volumes that were there is what the listing found shadowed; and what this
      purge freed was listed, so nothing it found shadowed was touched. */
  method PurgeNode(d: Daemon, node: string, release: string, patience: nat) returns (ok: bool, ghost left: set<Held>)
    requires WellFormed(d.Now())
    modifies d
    ensures Follows(old(d.Now()), d.Now()) && d.records >= old(d.records)
    ensures FoundShadowed(old(d.Now()), d.Now(), release, left)
    ensures ok ==> Purged(old(d.Now()), d.Now(), release, node, left) && d.unlisted == old(d.unlisted)
    ensures d.faults >= old(d.faults) && d.unlisted >= old(d.unlisted) && d.unreached == old(d.unreached)
    ensures !ok ==> d.faults > old(d.faults) && GaveUp(d, old(d.faults), old(d.unlisted), old(d.unreached), patience)
    ensures d.removed == old(d.removed) && d.shadowed == old(d.shadowed) + left
    ensures FreedWithin(old(d.freed), d.freed, release)
    ensures forall h, l :: h in d.freed && h !in old(d.freed) && l in left ==> h.slot != l.slot
  {
    hide Follows, Shadowed, Labelled, FoundShadowed;
    ghost var start := d.Now();
    var names;
    ok, names, left := d.ListVolumes(node, release);
    ghost var listed := d.Now();
    FollowsWellFormed(start, listed);
    FollowsSelf(listed);
    FoundOnce(start, listed, listed, release, node);
    if !ok { return; }
    hide FreedWithin;
    var own := OwnVolumes(release, names);
    var todo := own;
    assert FreedOnly(old(d.freed), d.freed, node, own, release);
    while todo != {}
      invariant todo <= own && Follows(listed, d.Now()) && WellFormed(d.Now())
      invariant d.records >= old(d.records) && d.removed == old(d.removed) && d.shadowed == old(d.shadowed) + left
      invariant d.faults >= old(d.faults) && d.unlisted == old(d.unlisted) && d.unreached == old(d.unreached)
      invariant FreedOnly(old(d.freed), d.freed, node, own, release)
      invariant forall n :: n in own - todo ==> SlotFreed(listed, d.Now(), Slot(node, n), release)
      decreases |todo|
    {
      var name :| name in todo;
      ghost var before := d.Now();
      ok := Settle(d, node, name, release, patience);
      FollowsWellFormed(before, d.Now());
      FreedStays(listed, before, d.Now(), node, own - todo, release);
      if !ok {
        FoundOnce(start, listed, d.Now(), release, node);
        FollowsTransitive(start, listed, d.Now());
        ListedIsNotLeft(listed, node, release, own, left);
        OwnAreFreed(old(d.freed), d.freed, node, own, release, left);
        return;
      }
      todo := todo - {name};
    }
    FoundOnce(start, listed, d.Now(), release, node);
    FollowsTransitive(start, listed, d.Now());
    ListedIsNotLeft(listed, node, release, own, left);
    OwnAreFreed(old(d.freed), d.freed, node, own, release, left);
    NodePurged(start, listed, d.Now(), node, own, release);
    ok := true;
  }

  /** Nothing freed under the release's own names is at a place that was left. */
  lemma OwnAreFreed(before: set<Held>, after: set<Held>, node: string, own: set<string>, release: string, left: set<Held>)
    requires FreedOnly(before, after, node, own, release) && forall n :: n in own ==> release + "_" <= n
    requires forall l :: l in left ==> l.slot.node == node && l.slot.name !in own
    ensures FreedWithin(before, after, release)
    ensures forall h, l :: h in after && h !in before && l in left ==> h.slot != l.slot
  {
  }

  lemma ListedIsNotLeft(listed: World, node: string, release: string, own: set<string>, left: set<Held>)
    requires left == Labelled(listed, node, release, true)
    requires forall n :: n in own ==> !Shadowed(listed, Slot(node, n))
    ensures forall l :: l in left ==> l.slot.node == node && l.slot.name !in own
  {
    hide Shadowed;
    assert forall s: Slot :: s.node == node ==> s == Slot(node, s.name);
  }

  lemma FollowsWellFormed(a: World, b: World)
    requires Follows(a, b)
    ensures WellFormed(b)
  {
  }

  /** purgeEveryNode over the nodes the registry hands over. A registry that
      reaches none has not looked, and a node it names must be reached. */
  method PurgeNodes(d: Daemon, nodes: seq<string>, release: string, patience: nat) returns (ok: bool, ghost left: set<Held>)
    requires WellFormed(d.Now())
    modifies d
    ensures Follows(old(d.Now()), d.Now()) && d.records >= old(d.records)
    ensures FoundShadowed(old(d.Now()), d.Now(), release, left)
    ensures ok ==> d.unreached == old(d.unreached) && d.unlisted == old(d.unlisted)
    ensures ok ==> nodes != [] && forall node :: node in nodes ==> Purged(old(d.Now()), d.Now(), release, node, left)
    ensures d.faults >= old(d.faults) && d.unlisted >= old(d.unlisted) && d.unreached >= old(d.unreached)
    ensures !ok ==> nodes == [] || (d.faults > old(d.faults) && GaveUp(d, old(d.faults), old(d.unlisted), old(d.unreached), patience))
    ensures d.removed == old(d.removed) && d.shadowed == old(d.shadowed) + left
    ensures FreedWithin(old(d.freed), d.freed, release)
  {
    hide Follows, Purged, FoundShadowed;
    ghost var start := d.Now();
    FollowsSelf(start);
    left := {};
    FoundNothing(start, start, release);
    if |nodes| == 0 { return false, left; }
    for i := 0 to |nodes|
      invariant Follows(start, d.Now()) && WellFormed(d.Now()) && d.records >= old(d.records)
      invariant d.removed == old(d.removed) && d.shadowed == old(d.shadowed) + left
      invariant FreedWithin(old(d.freed), d.freed, release)
      invariant FoundShadowed(start, d.Now(), release, left)
      invariant d.faults >= old(d.faults) && d.unlisted == old(d.unlisted) && d.unreached == old(d.unreached)
      invariant forall k :: 0 <= k < i ==> Purged(start, d.Now(), release, nodes[k], left)
    {
      ghost var was := d.Now();
      var reached := d.Reach(nodes[i]);
      ghost var before, known := d.Now(), left;
      FollowsWellFormed(was, before);
      FollowsTransitive(start, was, before);
      FoundNothing(was, before, release);
      FoundWider(start, was, before, release, left, {});
      assert left + {} == left;
      if !reached { return false, left; }
      ghost var more;
      ok, more := PurgeNode(d, nodes[i], release, patience);
      left := known + more;
      FoundWider(start, before, d.Now(), release, known, more);
      FollowsTransitive(start, before, d.Now());
      FollowsWellFormed(before, d.Now());
      FollowsTransitive(was, before, d.Now());
      if !ok { return ok, left; }
      forall k | 0 <= k < i ensures Purged(start, d.Now(), release, nodes[k], left) {
        PurgedStays(start, was, d.Now(), release, nodes[k], known, left);
      }
      PurgedStays(start, before, d.Now(), release, nodes[i], more, left);
    }
    ok := true;
  }

  /** How volumes are treated: left, purged on this node, or on the nodes a
      registry reaches. */
  datatype Purge = Keep | ThisNode(node: string) | EveryNode(nodes: seq<string>)

  ghost predicate InReach(p: Purge, node: string) {
    (p.ThisNode? && p.node == node) || (p.EveryNode? && node in p.nodes)
  }

  ghost predicate AllPurged(a: World, b: World, release: string, purge: Purge, left: set<Held>) {
    forall node :: InReach(purge, node) ==> Purged(a, b, release, node, left)
  }

  lemma AllPurgedStays(a: World, b: World, c: World, release: string, purge: Purge, left: set<Held>)
    requires WellFormed(a) && Follows(a, b) && Follows(b, c)
    ensures AllPurged(a, b, release, purge, left) || AllPurged(b, c, release, purge, left) ==> AllPurged(a, c, release, purge, left)
  {
    forall node | InReach(purge, node)
      ensures Purged(a, b, release, node, left) || Purged(b, c, release, node, left) ==> Purged(a, c, release, node, left)
    {
      PurgedStays(a, b, c, release, node, left, left);
    }
  }

  /** Release: the stack, then the volumes, then the records, each only behind
      the one before it. Whatever fails, records lost during the call mean that
      what was there when it began is gone, short of the release's own volumes
      that this call found shadowed. */
  method TakeDown(d: Daemon, release: string, own: (bool, string), purge: Purge, patience: nat)
    returns (ok: bool, ghost left: set<Held>)
    requires WellFormed(d.Now())
    modifies d
    ensures Follows(old(d.Now()), d.Now())
    ensures FoundShadowed(old(d.Now()), d.Now(), release, left)
    ensures ok || !(d.records >= old(d.records)) ==> Cleared(old(d.Now()), d.Now(), release)
    ensures ok || !(d.records >= old(d.records)) ==> AllPurged(old(d.Now()), d.Now(), release, purge, left)
    ensures d.records >= old(d.records) - {release} && (ok ==> release !in d.records)
    ensures !ok ==> d.faults > old(d.faults) || release == "" || !own.0 || own.1 == release || purge == EveryNode([])
    ensures OnlyOfStack(old(d.removed), d.removed, release) && d.shadowed == old(d.shadowed) + left
    ensures FreedWithin(old(d.freed), d.freed, release)
  {
    hide Follows, Cleared, AllPurged, OnlyOfStack, Remains, FoundShadowed;
    left := {};
    ghost var w0 := d.Now();
    var r := RemoveStack(d, release, own);
    ghost var w1 := d.Now();
    FollowsWellFormed(w0, w1);
    FoundNothing(w0, w1, release);
    if r != Done { return false, left; }
    ok, left := PurgeBy(d, release, purge, patience);
    ghost var w2 := d.Now();
    FollowsTransitive(w0, w1, w2);
    FollowsWellFormed(w0, w2);
    FoundWider(w0, w1, w2, release, {}, left);
    assert {} + left == left;
    if !ok { return; }
    ok := d.Uninstall(release);
    ghost var w3 := d.Now();
    FollowsTransitive(w1, w2, w3);
    FollowsTransitive(w0, w1, w3);
    FoundNothing(w2, w3, release);
    FoundWider(w0, w2, w3, release, left, {});
    assert left + {} == left;
    ClearedStays(w0, w1, w3, release, Service);
    AllPurgedStays(w1, w2, w3, release, purge, left);
    AllPurgedStays(w0, w1, w3, release, purge, left);
  }

  method PurgeBy(d: Daemon, release: string, purge: Purge, patience: nat) returns (ok: bool, ghost left: set<Held>)
    requires WellFormed(d.Now())
    modifies d
    ensures Follows(old(d.Now()), d.Now()) && d.records >= old(d.records) && d.removed == old(d.removed)
    ensures FoundShadowed(old(d.Now()), d.Now(), release, left)
    ensures d.shadowed == old(d.shadowed) + left && d.faults >= old(d.faults)
    ensures FreedWithin(old(d.freed), d.freed, release)
    ensures ok ==> AllPurged(old(d.Now()), d.Now(), release, purge, left)
    ensures !ok ==> purge == EveryNode([]) ||
                    (d.faults > old(d.faults) && GaveUp(d, old(d.faults), old(d.unlisted), old(d.unreached), patience))
  {
    FollowsSelf(d.Now());
    FoundNothing(d.Now(), d.Now(), release);
    hide Follows, FoundShadowed, Purged;
    match purge {
      case Keep => ok, left := true, {};
      case ThisNode(node) => ok, left := PurgeNode(d, node, release, patience);
      case EveryNode(nodes) => ok, left := PurgeNodes(d, nodes, release, patience);
    }
  }

  // --- over runs ---

  /** The swarm and the releases with records at one moment. */
  datatype Moment = Moment(world: World, records: set<string>)

  /** What happens between two moments: others do what they do, or a sweep takes a
      release down, whatever comes of it. */
  datatype Step = ByOthers | BySweep(release: string, purge: Purge, left: set<Held>)

  ghost predicate IsStep(a: Moment, b: Moment, s: Step) {
    Follows(a.world, b.world) &&
    match s {
      case ByOthers => a.records <= b.records
      case BySweep(release, purge, left) =>
        a.records - {release} <= b.records && (a.records <= b.records || Vanished(a.world, b.world, release, purge, left))
    }
  }

  /** Nothing stands in b of what was there in a to be removed of the release: no
      resource of its stack, and no volume of its own in reach but those found
      shadowed in between. */
  ghost predicate Vanished(a: World, b: World, release: string, purge: Purge, left: set<Held>) {
    Cleared(a, b, release) && AllPurged(a, b, release, purge, left) && FoundShadowed(a, b, release, left)
  }

  ghost predicate IsRun(ms: seq<Moment>, steps: seq<Step>) {
    |ms| == |steps| + 1 && WellFormed(ms[0].world) && forall i :: 0 <= i < |steps| ==> IsStep(ms[i], ms[i + 1], steps[i])
  }

  lemma {:induction false} RunFollows(ms: seq<Moment>, steps: seq<Step>, i: nat, j: nat)
    requires IsRun(ms, steps) && i < j < |ms|
    ensures Follows(ms[i].world, ms[j].world) && WellFormed(ms[i].world)
    decreases j
  {
    hide Follows, Vanished, WellFormed;
    assert IsStep(ms[j - 1], ms[j], steps[j - 1]);
    if i > 0 {
      assert IsStep(ms[i - 1], ms[i], steps[i - 1]);
      FollowsWellFormed(ms[i - 1].world, ms[i].world);
    }
    if i < j - 1 {
      RunFollows(ms, steps, i, j - 1);
      FollowsTransitive(ms[i].world, ms[j - 1].world, ms[j].world);
    }
  }

  lemma VanishedStays(a: World, b: World, c: World, release: string, purge: Purge, left: set<Held>)
    requires WellFormed(a) && Follows(a, b) && Follows(b, c) && Vanished(a, b, release, purge, left)
    ensures Vanished(a, c, release, purge, left)
  {
    hide Follows, Cleared, AllPurged, FoundShadowed;
    ClearedStays(a, b, c, release, Service);
    AllPurgedStays(a, b, c, release, purge, left);
    FoundNothing(b, c, release);
    FoundWider(a, b, c, release, left, {});
    assert left + {} == left;
  }

  /** Recoverability. In every run of sweeps, of whatever releases and with whatever
      in reach, whatever fails in them and whatever others do in between: whenever a
      release loses its records, it is to a sweep of that release, and ever after
      nothing stands of what was there to be removed of it when that sweep began.
      So what a sweep leaves standing keeps the records that find it again. */
  lemma Recoverable(ms: seq<Moment>, steps: seq<Step>, release: string, i: nat, n: nat)
    requires IsRun(ms, steps) && i < n < |ms|
    requires release in ms[i].records && release !in ms[i + 1].records
    ensures steps[i].BySweep? && steps[i].release == release
    ensures Vanished(ms[i].world, ms[n].world, release, steps[i].purge, steps[i].left)
  {
    assert IsStep(ms[i], ms[i + 1], steps[i]);
    hide Follows, Vanished, WellFormed;
    if i + 1 < n {
      RunFollows(ms, steps, i, i + 1);
      RunFollows(ms, steps, i + 1, n);
      VanishedStays(ms[i].world, ms[i + 1].world, ms[n].world, release, steps[i].purge, steps[i].left);
    }
  }

  /** A release without its records lost them last at some step. */
  lemma LastLoss(ms: seq<Moment>, steps: seq<Step>, release: string) returns (i: nat)
    requires IsRun(ms, steps) && release in ms[0].records && release !in ms[|ms| - 1].records
    ensures i + 1 < |ms| && release in ms[i].records && forall k :: i < k < |ms| ==> release !in ms[k].records
  {
    hide IsStep, WellFormed;
    i := |ms| - 2;
    while release !in ms[i].records
      invariant 0 <= i < |ms| - 1 && forall k :: i < k < |ms| ==> release !in ms[k].records
      decreases i
    {
      i := i - 1;
    }
  }

  /** And nothing stands of what was there of it when that step, or the run, began. */
  lemma LostSinceStart(ms: seq<Moment>, steps: seq<Step>, release: string, i: nat)
    requires IsRun(ms, steps) && i + 1 < |ms| && release in ms[i].records && release !in ms[i + 1].records
    ensures steps[i].BySweep?
    ensures Vanished(ms[i].world, ms[|ms| - 1].world, release, steps[i].purge, steps[i].left)
    ensures Cleared(ms[0].world, ms[|ms| - 1].world, release)
    ensures AllPurged(ms[0].world, ms[|ms| - 1].world, release, steps[i].purge, steps[i].left)
  {
    var last := |ms| - 1;
    Recoverable(ms, steps, release, i, last);
    hide Follows, Cleared, AllPurged, FoundShadowed, IsStep, WellFormed;
    if i > 0 {
      RunFollows(ms, steps, 0, i);
      RunFollows(ms, steps, i, last);
      ClearedStays(ms[0].world, ms[i].world, ms[last].world, release, Service);
      AllPurgedStays(ms[0].world, ms[i].world, ms[last].world, release, steps[i].purge, steps[i].left);
    }
  }

  /** Appending a step to a run. */
  lemma RunNext(ms: seq<Moment>, steps: seq<Step>, m: Moment, s: Step)
    requires IsRun(ms, steps) && IsStep(ms[|ms| - 1], m, s)
    ensures IsRun(ms + [m], steps + [s])
  {
    hide IsStep, WellFormed;
  }

  ghost function MomentOf(d: Daemon): Moment
    reads d
  {
    Moment(d.Now(), d.records)
  }

  /** Any number of sweeps of one release, with others in between, is such a run. So
      a release that had records and has none lost them last to the sweep at `at`. */
  method SweepRepeatedly(d: Daemon, release: string, own: (bool, string), purges: seq<Purge>, patience: nat)
    returns (ghost ms: seq<Moment>, ghost steps: seq<Step>, ghost at: nat)
    requires WellFormed(d.Now())
    modifies d
    ensures IsRun(ms, steps) && ms[0] == old(MomentOf(d)) && ms[|ms| - 1] == MomentOf(d) && |steps| == 2 * |purges|
    ensures forall i :: 0 <= i < |purges| ==>
              steps[2 * i].ByOthers? && steps[2 * i + 1].BySweep? &&
              steps[2 * i + 1].release == release && steps[2 * i + 1].purge == purges[i]
    ensures old(d.records) - {release} <= d.records
    ensures OnlyOfStack(old(d.removed), d.removed, release) && FreedWithin(old(d.freed), d.freed, release)
    ensures release in old(d.records) && release !in d.records ==>
              at < |purges| && release in ms[2 * at + 1].records &&
              (forall k :: 2 * at + 1 < k < |ms| ==> release !in ms[k].records) &&
              Vanished(ms[2 * at + 1].world, d.Now(), release, purges[at], steps[2 * at + 1].left) &&
              Cleared(old(d.Now()), d.Now(), release) &&
              AllPurged(old(d.Now()), d.Now(), release, purges[at], steps[2 * at + 1].left)
  {
    hide Follows, Vanished, IsStep, WellFormed, Cleared, AllPurged;
    at := 0;
    ms, steps := [MomentOf(d)], [];
    for i := 0 to |purges|
      invariant IsRun(ms, steps) && ms[0] == old(MomentOf(d)) && ms[|ms| - 1] == MomentOf(d) && |steps| == 2 * i
      invariant forall k :: 0 <= k < i ==>
                  steps[2 * k].ByOthers? && steps[2 * k + 1].BySweep? &&
                  steps[2 * k + 1].release == release && steps[2 * k + 1].purge == purges[k]
      invariant WellFormed(d.Now()) && old(d.records) - {release} <= d.records
      invariant OnlyOfStack(old(d.removed), d.removed, release) && FreedWithin(old(d.freed), d.freed, release)
    {
      OthersStep(d);
      RunNext(ms, steps, MomentOf(d), ByOthers);
      ms, steps := ms + [MomentOf(d)], steps + [ByOthers];
      ghost var left := SweepStep(d, release, own, purges[i], patience);
      RunNext(ms, steps, MomentOf(d), BySweep(release, purges[i], left));
      ms, steps := ms + [MomentOf(d)], steps + [BySweep(release, purges[i], left)];
    }
    if release in ms[0].records && release !in d.records {
      ghost var i := LastLoss(ms, steps, release);
      LostSinceStart(ms, steps, release, i);
      at := i / 2;
      assert steps[2 * at + 1].purge == purges[at] && (steps[2 * at].ByOthers? ==> i == 2 * at + 1);
    }
  }

  method OthersStep(d: Daemon)
    requires WellFormed(d.Now())
    modifies d
    ensures IsStep(old(MomentOf(d)), MomentOf(d), ByOthers) && WellFormed(d.Now()) && old(d.records) <= d.records
    ensures d.removed == old(d.removed) && d.freed == old(d.freed)
  {
    d.Others();
  }

  method SweepStep(d: Daemon, release: string, own: (bool, string), purge: Purge, patience: nat) returns (ghost left: set<Held>)
    requires WellFormed(d.Now())
    modifies d
    ensures IsStep(old(MomentOf(d)), MomentOf(d), BySweep(release, purge, left)) && WellFormed(d.Now())
    ensures old(d.records) - {release} <= d.records
    ensures OnlyOfStack(old(d.removed), d.removed, release) && FreedWithin(old(d.freed), d.freed, release)
  {
    hide Cleared, AllPurged, FoundShadowed, OnlyOfStack, FreedWithin;
    var ok;
    ok, left := TakeDown(d, release, own, purge, patience);
  }

  /** A volume is left out of its own release's purge exactly when a cluster volume
      listed beside it, whoever's it is, answers to its name. */
  lemma LeftOutExactly(w: World, s: Slot, release: string)
    requires s in w.volumes && w.volumes[s].stack == release
    ensures Held(s, w.volumes[s]) in Labelled(w, s.node, release, true) <==>
            exists c :: c in w.clusters && c.node == s.node && (Fold(c.name) == Fold(s.name) || s.name <= c.id)
  {
  }

  /** So a release can lose its records while a volume of its own stays: web_data,
      beside the cluster volume Web_Data. */
  lemma ShadowedVolumeIsLeft()
    ensures var s := Slot("n", "web_data");
            var w := World(map[], map[s := Volume(1, "web")], {Cluster("n", "c1", "Web_Data")}, {1});
            WithinRelease(s.name, "web") && Labelled(w, "n", "web", false) == {} &&
            Purged(w, w, "web", "n", Labelled(w, "n", "web", true)) && !Purged(w, w, "web", "n", {})
  {
    var s := Slot("n", "web_data");
    var c := Cluster("n", "c1", "Web_Data");
    var w := World(map[], map[s := Volume(1, "web")], {c}, {1});
    assert Fold("Web_Data") == Fold("web_data");
    assert c in w.clusters && Shadowed(w, s);
    assert "web_data"[..4] == "web_" && WithinRelease(s.name, "web");
    LeftOutExactly(w, s, "web");
    assert s in w.volumes;
  }
}
