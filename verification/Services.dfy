/** Applying a stack's services (backend/service.go, compose/image.go).

    Every write is a compare-and-swap against the version last read, retried when
    it is lost, while others write the same services at any time. An update that
    keeps the live image stores it through a pointer that the next attempt reads
    again, so container specs are objects here. */
module Services {
  import opened Text

  // --- images ---

  function LastAt(s: string): (r: Option<nat>)
    ensures r.None? ==> '@' !in s
    ensures r.Some? ==> r.value < |s| && s[r.value] == '@' && '@' !in s[r.value + 1..]
  {
    if s == "" then None
    else if s[|s| - 1] == '@' then Some(|s| - 1)
    else LastAt(s[..|s| - 1])
  }

  /** imageTag: the reference without what follows its last '@'. */
  function ImageTag(image: string): string {
    if LastAt(image).None? then image else image[..LastAt(image).value]
  }

  /** SameImage, over the normalisation the client applies to what it sends. */
  predicate SameImage(norm: string -> string, live: string, wanted: string) {
    live == norm(wanted) || ImageTag(live) == norm(wanted)
  }

  /** The reference a registry lookup stores: the normalised one with the digest
      it resolved to, unless it names a digest already or none was found. */
  function Stored(norm: string -> string, image: string, digest: Option<string>): string {
    if digest.None? || '@' in norm(image) then norm(image) else norm(image) + "@" + digest.value
  }

  ghost predicate IsDigest(d: string) {
    '@' !in d
  }

  predicate HoldsOneAt(image: string) {
    '@' !in ImageTag(image)
  }

  /** What the client does to a reference, as far as this model goes: doing it
      twice is doing it once, and a digest on a normalised reference stays as it is. */
  ghost predicate Normaliser(norm: string -> string) {
    (forall x :: norm(norm(x)) == norm(x)) &&
    forall x, d :: IsDigest(d) && '@' !in norm(x) ==> norm(norm(x) + "@" + d) == norm(x) + "@" + d
  }

  /** A reference as the daemon keeps it. */
  predicate Storable(norm: string -> string, image: string) {
    norm(image) == image && HoldsOneAt(image)
  }

  lemma StoredIsStorable(norm: string -> string, image: string, digest: Option<string>)
    requires Normaliser(norm) && HoldsOneAt(norm(image)) && (digest.Some? ==> IsDigest(digest.value))
    ensures Storable(norm, Stored(norm, image, digest))
  {
  }

  /** What the daemon stores for an image is that image, digest or not. */
  lemma StoredIsSame(norm: string -> string, image: string, digest: Option<string>)
    requires digest.Some? ==> IsDigest(digest.value)
    ensures SameImage(norm, Stored(norm, image, digest), image)
    ensures '@' in Stored(norm, image, digest) <==> digest.Some? || '@' in norm(image)
  {
  }

  /** Keeping a live image for one that was itself kept. It is still the
      manifest's image exactly when nothing was gained on the way: the second is
      the first, or the first was the manifest's own reference. */
  lemma KeptTwice(norm: string -> string, live: string, kept: string, manifest: string)
    requires norm(kept) == kept && SameImage(norm, kept, manifest) && SameImage(norm, live, kept)
    ensures SameImage(norm, live, manifest) <==> live == kept || kept == norm(manifest)
  {
  }

  /** With at most one '@' in a stored reference that is always so, and with two
      it need not be: a digest appended to a digest is taken for the same image
      one step further each time. */
  lemma OneAtKeepsTheImage(norm: string -> string, live: string, kept: string, manifest: string)
    requires norm(kept) == kept && SameImage(norm, kept, manifest) && SameImage(norm, live, kept)
    requires HoldsOneAt(live)
    ensures SameImage(norm, live, manifest)
  {
  }

  lemma TwoAtsMayLoseIt()
    ensures var norm := (s: string) => s;
            SameImage(norm, "n@a", "n") && SameImage(norm, "n@a@b", "n@a") && !SameImage(norm, "n@a@b", "n")
  {
  }

  // --- services ---

  datatype Resolve = Always | Changed | Never

  class ContainerSpec {
    var image: string

    constructor (image: string)
      ensures this.image == image
    {
      this.image := image;
    }
  }

  /** A desired service: its container, None for another runtime; the image as
      the manifest wrote it, which the conversion puts in a label; and the rest. */
  datatype Spec = Spec(container: ContainerSpec?, manifest: string, rest: string)

  /** A spec as sent and as stored. */
  datatype Content = Content(image: Option<string>, deployed: string, force: nat, rest: string)

  datatype Service = Service(id: string, version: nat, stack: string, content: Content)

  /** A write of this controller: against the version `against`, asking the
      registry or not; or a creation. */
  datatype Act =
    | Write(name: string, id: string, against: nat, sent: Content, query: bool)
    | Create(name: string, sent: Content, query: bool)

  datatype Reply = Accepted | Conflict | Refused

  class Swarm {
    const norm: string -> string
    /** By name, which is unique on a swarm. */
    var services: map<string, Service>
    ghost var acts: seq<Act>
    ghost var attempts: nat
    /** The writes lost to somebody else's, those reported as such, and the reads
        of one service. */
    ghost var conflicts: nat
    ghost var reports: nat
    ghost var inspected: nat
    /** How many calls failed, lost writes apart. */
    ghost var faults: nat
    /** The version each service had when this controller last read it. */
    ghost var lastRead: map<string, nat>
    /** The last listing: of which stack, and what it found. */
    ghost var listed: (string, map<string, Service>)

    constructor (norm: string -> string)
      requires Normaliser(norm)
      ensures this.norm == norm && Valid() && acts == [] && attempts == conflicts == reports == inspected == faults == 0
    {
      this.norm := norm;
      services, acts, lastRead := map[], [], map[];
      attempts, conflicts, reports, inspected, faults := 0, 0, 0, 0, 0;
      listed := ("", map[]);
    }

    /** Stored images are as the client leaves them, with at most one digest. */
    ghost predicate Valid()
      reads this`services
    {
      Normaliser(norm) && forall n :: n in services ==> ContentStorable(norm, services[n].content)
    }

    /** Others create, change and delete services; a changed one has a new version. */
    method Others()
      requires Valid()
      modifies this`services
      ensures Valid() && Evolves(old(services), services)
    {
      var next: map<string, Service> := *;
      services := map n | n in next && ContentStorable(norm, next[n].content) &&
        (n in services && services[n].id == next[n].id ==>
          (services[n].version < next[n].version || services[n] == next[n])) :: next[n];
    }

    method List(stack: string) returns (ok: bool, existing: map<string, Service>)
      requires Valid()
      modifies this`services, this`lastRead, this`faults, this`listed
      ensures faults == old(faults) + (if ok then 0 else 1) && listed == (stack, existing)
      ensures Valid() && existing == map n | n in services && services[n].stack == stack :: services[n]
      ensures forall n :: n in existing ==> n in lastRead && lastRead[n] == existing[n].version
    {
      Others();
      ok := *;
      if !ok { faults := faults + 1; }
      existing := map n | n in services && services[n].stack == stack :: services[n];
      lastRead := map n | n in services :: services[n].version;
      listed := (stack, existing);
    }

    method Inspect(name: string, id: string) returns (live: Option<Service>)
      requires Valid()
      modifies this`services, this`lastRead, this`inspected, this`faults
      ensures Valid() && inspected == old(inspected) + 1 && faults == old(faults) + if live.Some? then 0 else 1
      ensures (live.Some? ==> name in services && live.value == services[name] && live.value.id == id)
      ensures lastRead == if live.Some? then old(lastRead)[name := live.value.version] else old(lastRead)
    {
      Others();
      inspected := inspected + 1;
      var works: bool := *;
      if works && name in services && services[name].id == id {
        live := Some(services[name]);
        lastRead := lastRead[name := services[name].version];
      } else {
        live := None;
        faults := faults + 1;
      }
    }

    /** The registry credentials of a spec, encoded for the daemon. */
    method Auth() returns (ok: bool)
      modifies this`faults
      ensures faults == old(faults) + if ok then 0 else 1
    {
      ok := *;
      if !ok { faults := faults + 1; }
    }

    /** A digest the registry answers with, if it is asked and answers. */
    method Lookup(query: bool) returns (digest: Option<string>)
      ensures digest.Some? ==> query && IsDigest(digest.value)
    {
      digest := *;
      if !query || (digest.Some? && '@' in digest.value) { digest := None; }
    }

    /** A write against a version. It lands only on that version; a refused one
        may yet have landed, a conflicting one has not. */
    method Update(name: string, id: string, version: nat, sent: Content, query: bool) returns (r: Reply)
      requires Valid() && (sent.image.Some? ==> HoldsOneAt(norm(sent.image.value)))
      modifies this`services, this`acts, this`attempts, this`conflicts, this`faults
      ensures Valid() && attempts == old(attempts) + 1
      ensures acts == old(acts) || acts == old(acts) + [Write(name, id, version, sent, query)]
      ensures r == Accepted ==> acts != old(acts) && name in services && services[name].version == version + 1 &&
                                IsStoredFrom(norm, services[name].content, sent)
      ensures r == Conflict ==> acts == old(acts)
      ensures conflicts == old(conflicts) + if r == Conflict then 1 else 0
      ensures faults == old(faults) + if r == Refused then 1 else 0
    {
      hide Normaliser, Valid;
      Others();
      attempts := attempts + 1;
      if name !in services || services[name].id != id {
        faults := faults + 1;
        return Refused;
      }
      if services[name].version != version {
        conflicts := conflicts + 1;
        return Conflict;
      }
      var works: bool, clear: bool := *, *;
      if !works {
        faults := faults + 1;
        return Refused;
      }
      acts := acts + [Write(name, id, version, sent, query)];
      Put(name, Service(id, version + 1, services[name].stack, sent), query);
      if !clear { faults := faults + 1; }
      r := if clear then Accepted else Refused;
    }

    method Put(name: string, svc: Service, query: bool)
      requires Valid() && (svc.content.image.Some? ==> HoldsOneAt(norm(svc.content.image.value)))
      modifies this`services
      ensures Valid() && name in services && services[name].id == svc.id && services[name].version == svc.version
      ensures IsStoredFrom(norm, services[name].content, svc.content)
    {
      var digest := Lookup(query);
      var content := svc.content;
      if content.image.Some? {
        StoredIsStorable(norm, content.image.value, digest);
        StoredIsSame(norm, content.image.value, digest);
        content := content.(image := Some(Stored(norm, content.image.value, digest)));
      }
      services := services[name := svc.(content := content)];
    }

    method Create(name: string, id: string, stack: string, sent: Content, query: bool) returns (ok: bool)
      requires Valid() && (sent.image.Some? ==> HoldsOneAt(norm(sent.image.value)))
      modifies this`services, this`acts, this`faults
      ensures Valid() && faults == old(faults) + if ok then 0 else 1
      ensures acts == old(acts) || acts == old(acts) + [Act.Create(name, sent, query)]
      ensures ok ==> acts != old(acts)
    {
      Others();
      var works: bool, clear: bool := *, *;
      if name in services || !works {
        faults := faults + 1;
        return false;
      }
      acts := acts + [Act.Create(name, sent, query)];
      Put(name, Service(id, 1, stack, sent), query);
      if !clear { faults := faults + 1; }
      ok := clear;
    }
  }

  predicate ContentStorable(norm: string -> string, c: Content) {
    c.image.Some? ==> Storable(norm, c.image.value)
  }

  /** What is stored for a sent spec: the spec, with an image that is the same. */
  predicate IsStoredFrom(norm: string -> string, stored: Content, sent: Content) {
    stored == sent.(image := stored.image) && (stored.image.Some? <==> sent.image.Some?) &&
    (sent.image.Some? ==> SameImage(norm, stored.image.value, sent.image.value))
  }

  ghost predicate Evolves(a: map<string, Service>, b: map<string, Service>) {
    forall n :: n in a && n in b && a[n].id == b[n].id ==> a[n].version < b[n].version || a[n] == b[n]
  }

  // --- prepareUpdate ---

  datatype Prepared = Prepared(image: Option<string>, query: bool)

  /** What an update sends for the image, and whether the registry is asked. */
  function Prepare(norm: string -> string, wanted: Option<string>, live: Content, resolve: Resolve): Prepared {
    var asked := if wanted.None? then "" else wanted.value;
    if resolve == Always || (resolve == Changed && asked != live.deployed) then Prepared(wanted, true)
    else if wanted.Some? && live.image.Some? && asked == live.deployed && SameImage(norm, live.image.value, live.deployed)
    then Prepared(live.image, false)
    else Prepared(wanted, false)
  }

  function ImageOf(spec: Spec): Option<string>
    reads spec.container
  {
    if spec.container == null then None else Some(spec.container.image)
  }

  method PrepareUpdate(norm: string -> string, cur: Service, spec: Spec, resolve: Resolve) returns (sent: Content, query: bool)
    modifies spec.container
    ensures Prepare(norm, old(ImageOf(spec)), cur.content, resolve) == Prepared(ImageOf(spec), query)
    ensures sent == Content(ImageOf(spec), spec.manifest, cur.content.force, spec.rest)
  {
    query := false;
    var deployed := cur.content.deployed;
    var wanted := "";
    if spec.container != null { wanted := spec.container.image; }
    if resolve == Always {
      query := true;
    } else if resolve == Changed && wanted != deployed {
      query := true;
    } else if spec.container != null && cur.content.image.Some? && wanted == deployed &&
              SameImage(norm, cur.content.image.value, deployed) {
      spec.container.image := cur.content.image.value;
    }
    sent := Content(ImageOf(spec), spec.manifest, cur.content.force, spec.rest);
  }

  // --- updateService ---

  const MAX_CONFLICT_RETRIES := 3

  datatype Result = Updated | GaveUp | Failed

  /** A container's image is the manifest's: as written, or as kept from a live
      service that had it. */
  predicate Faithful(norm: string -> string, image: string, manifest: string) {
    image == manifest || (Storable(norm, image) && SameImage(norm, image, manifest))
  }

  /** Whatever is prepared from a faithful spec is faithful, however often the
      live service has changed in between. */
  lemma PrepareStaysFaithful(norm: string -> string, wanted: string, manifest: string, live: Content, resolve: Resolve)
    requires Faithful(norm, wanted, manifest) && ContentStorable(norm, live)
    ensures var p := Prepare(norm, Some(wanted), live, resolve);
            p.image.Some? && Faithful(norm, p.image.value, manifest)
  {
  }

  /** A faithful image, normalised on its way out, is the manifest's image. */
  lemma FaithfulIsSame(norm: string -> string, image: string, manifest: string)
    requires Normaliser(norm) && Faithful(norm, image, manifest) && HoldsOneAt(norm(manifest))
    ensures SameImage(norm, norm(image), manifest) && HoldsOneAt(norm(image))
  {
  }

  ghost predicate SpecFaithful(norm: string -> string, spec: Spec)
    reads spec.container
  {
    HoldsOneAt(norm(spec.manifest)) && (spec.container != null ==> Faithful(norm, spec.container.image, spec.manifest))
  }

  /** A manifest's own image is where every service starts. */
  lemma FreshIsFaithful(norm: string -> string, spec: Spec)
    requires HoldsOneAt(norm(spec.manifest)) && (spec.container != null ==> spec.container.image == spec.manifest)
    ensures SpecFaithful(norm, spec)
  {
  }

  /** What a write of this spec sends: the spec's own fields, and an image that is
      still the manifest's once normalised. */
  ghost predicate Sends(norm: string -> string, sent: Content, spec: Spec) {
    sent.deployed == spec.manifest && sent.rest == spec.rest && (sent.image.Some? <==> spec.container != null) &&
    (sent.image.Some? ==> SameImage(norm, norm(sent.image.value), spec.manifest))
  }

  /** updateService. At most one write lands, against the version last read and
      with the manifest's image, and success means that it did; however it ends,
      every write lost to somebody else's was reported, once; after three losses
      nothing was written; and it fails for anything else exactly when a call did. */
  method UpdateService(sw: Swarm, name: string, first: Service, spec: Spec, resolve: Resolve) returns (r: Result)
    requires sw.Valid() && SpecFaithful(sw.norm, spec) && ContentStorable(sw.norm, first.content)
    requires name in sw.lastRead && sw.lastRead[name] == first.version
    modifies sw, spec.container
    ensures sw.Valid() && SpecFaithful(sw.norm, spec)
    ensures sw.attempts <= old(sw.attempts) + MAX_CONFLICT_RETRIES && sw.listed == old(sw.listed)
    ensures sw.acts == old(sw.acts) ||
            (|sw.acts| == |old(sw.acts)| + 1 && sw.acts[..|old(sw.acts)|] == old(sw.acts) &&
             Writes(sw.norm, sw.acts[|old(sw.acts)|], name, first.id, spec) && name in sw.lastRead &&
             sw.acts[|old(sw.acts)|].against == sw.lastRead[name])
    ensures r == Updated ==> sw.acts != old(sw.acts) && sw.conflicts - old(sw.conflicts) == sw.attempts - old(sw.attempts) - 1
    ensures r == Updated ==> name in sw.services && IsStoredFrom(sw.norm, sw.services[name].content, sw.acts[|sw.acts| - 1].sent)
    ensures r == GaveUp ==> sw.acts == old(sw.acts) && sw.attempts == old(sw.attempts) + MAX_CONFLICT_RETRIES &&
                            sw.conflicts == old(sw.conflicts) + MAX_CONFLICT_RETRIES
    ensures sw.reports - sw.conflicts == old(sw.reports - sw.conflicts) && sw.inspected >= old(sw.inspected)
    ensures sw.conflicts >= old(sw.conflicts) && sw.faults == old(sw.faults) + if r == Failed then 1 else 0
    ensures forall n :: n != name && n in old(sw.lastRead) ==> n in sw.lastRead && sw.lastRead[n] == old(sw.lastRead)[n]
  {
    hide Normaliser, Swarm.Valid, Storable, HoldsOneAt, SameImage, Prepare, ContentStorable, SpecFaithful, IsStoredFrom, Sends;
    var cur := first;
    for attempt := 0 to MAX_CONFLICT_RETRIES
      invariant sw.Valid() && SpecFaithful(sw.norm, spec) && ContentStorable(sw.norm, cur.content)
      invariant cur.id == first.id && name in sw.lastRead && sw.lastRead[name] == cur.version
      invariant sw.acts == old(sw.acts) && sw.faults == old(sw.faults) && sw.listed == old(sw.listed)
      invariant forall n :: n != name && n in old(sw.lastRead) ==> n in sw.lastRead && sw.lastRead[n] == old(sw.lastRead)[n]
      invariant sw.attempts == old(sw.attempts) + attempt && sw.conflicts == old(sw.conflicts) + attempt
      invariant sw.reports - sw.conflicts == old(sw.reports - sw.conflicts) && sw.inspected >= old(sw.inspected)
    {
      var sent, query := PrepareFaithfully(sw, cur, spec, resolve);
      var auth := sw.Auth();
      if !auth { return Failed; }
      var reply := sw.Update(name, cur.id, cur.version, sent, query);
      if reply == Accepted { return Updated; }
      if reply == Refused { return Failed; }
      sw.reports := sw.reports + 1;
      var again := sw.Inspect(name, cur.id);
      if again.None? { return Failed; }
      ReadIsStorable(sw, name);
      cur := again.value;
    }
    r := GaveUp;
  }

  lemma ReadIsStorable(sw: Swarm, name: string)
    requires sw.Valid() && name in sw.services
    ensures ContentStorable(sw.norm, sw.services[name].content)
  {
  }

  ghost predicate Writes(norm: string -> string, act: Act, name: string, id: string, spec: Spec) {
    act.Write? && act.name == name && act.id == id && Sends(norm, act.sent, spec)
  }

  method PrepareFaithfully(sw: Swarm, cur: Service, spec: Spec, resolve: Resolve) returns (sent: Content, query: bool)
    requires sw.Valid() && SpecFaithful(sw.norm, spec) && ContentStorable(sw.norm, cur.content)
    modifies spec.container
    ensures sw.Valid() && SpecFaithful(sw.norm, spec) && Sends(sw.norm, sent, spec)
    ensures sent.force == cur.content.force
    ensures sent.image.Some? ==> HoldsOneAt(sw.norm(sent.image.value))
  {
    sent, query := PrepareUpdate(sw.norm, cur, spec, resolve);
    hide Storable, HoldsOneAt, SameImage, Prepare, Faithful;
    if spec.container != null {
      PrepareStaysFaithful(sw.norm, old(spec.container.image), spec.manifest, cur.content, resolve);
      FaithfulIsSame(sw.norm, spec.container.image, spec.manifest);
    }
  }

  /** One correction is a fixpoint. Preparing the same manifest against what a
      write stored keeps the stored image and asks no registry, so that the next
      write sends exactly what is there, restarting nothing. Only asking for a
      resolution every time defeats it. */
  lemma CorrectionIsAFixpoint(norm: string -> string, stored: Content, sent: Content, spec: Spec, resolve: Resolve)
    requires Normaliser(norm) && ContentStorable(norm, stored)
    requires IsStoredFrom(norm, stored, sent) && Sends(norm, sent, spec) && spec.container != null
    ensures SameImage(norm, stored.image.value, spec.manifest)
    ensures Prepare(norm, Some(spec.manifest), stored, resolve) ==
            if resolve == Always then Prepared(Some(spec.manifest), true) else Prepared(stored.image, false)
    ensures Content(stored.image, spec.manifest, stored.force, spec.rest) == stored && norm(stored.image.value) == stored.image.value
  {
  }

  // --- ApplyServices ---

  /** A service the stack declares, under its scoped name. */
  datatype Declared = Declared(name: string, spec: Spec)

  /** What a deploy knows of its own process: whether it deploys the stack it runs
      as, and the id of its own service, None when that could not be read. */
  datatype Self = Self(release: bool, id: Option<string>)

  predicate IsOwn(d: Declared, existing: map<string, Service>, self: Self) {
    self.release && self.id.Some? && self.id.value != "" &&
    d.name in existing && existing[d.name].id == self.id.value
  }

  function OwnOf(stack: seq<Declared>, existing: map<string, Service>, self: Self): seq<Declared>
    decreases |stack|
  {
    if stack == [] then []
    else
      var n := |stack| - 1;
      OwnOf(stack[..n], existing, self) + if IsOwn(stack[n], existing, self) then [stack[n]] else []
  }

  /** The declared names that are not the deploying process's own. */
  function OthersOf(stack: seq<Declared>, existing: map<string, Service>, self: Self): seq<string>
    decreases |stack|
  {
    if stack == [] then []
    else
      var n := |stack| - 1;
      OthersOf(stack[..n], existing, self) + if IsOwn(stack[n], existing, self) then [] else [stack[n].name]
  }

  function ActNames(acts: seq<Act>): (r: seq<string>)
    ensures |r| == |acts|
  {
    seq(|acts|, i requires 0 <= i < |acts| => acts[i].name)
  }

  datatype Applied = Done | Unlisted | Foreign | Unread | Stopped

  ghost predicate Ready(norm: string -> string, stack: seq<Declared>)
    reads set d | d in stack :: d.spec.container
  {
    (forall k :: 0 <= k < |stack| ==> SpecFaithful(norm, stack[k].spec)) &&
    forall j, k :: 0 <= j < k < |stack| ==> stack[j].spec.container == null || stack[j].spec.container != stack[k].spec.container
  }

  /** A service that was found is updated, and one that was not is created, with the
      registry asked unless that is turned off. */
  ghost predicate Fits(act: Act, existing: map<string, Service>, resolve: Resolve) {
    if act.name in existing then act.Write? && act.id == existing[act.name].id
    else act.Create? && act.sent.force == 0 && (act.query <==> resolve == Always || resolve == Changed)
  }

  /** An act that sends what the stack declares under its name. */
  ghost predicate SentFor(norm: string -> string, act: Act, stack: seq<Declared>, existing: map<string, Service>, resolve: Resolve) {
    Fits(act, existing, resolve) &&
    exists k :: 0 <= k < |stack| && stack[k].name == act.name && Sends(norm, act.sent, stack[k].spec)
  }

  /** What was done since `before`: services of the stack were written, those of
      `names` in that order. */
  ghost predicate Did(norm: string -> string, before: seq<Act>, after: seq<Act>, stack: seq<Declared>,
                      existing: map<string, Service>, resolve: Resolve, names: seq<string>) {
    |before| <= |after| && after[..|before|] == before && ActNames(after[|before|..]) == names &&
    forall i :: |before| <= i < |after| ==> SentFor(norm, after[i], stack, existing, resolve)
  }

  lemma DidNext(norm: string -> string, before: seq<Act>, mid: seq<Act>, act: Act, stack: seq<Declared>,
                existing: map<string, Service>, resolve: Resolve, names: seq<string>)
    requires Did(norm, before, mid, stack, existing, resolve, names) && SentFor(norm, act, stack, existing, resolve)
    ensures Did(norm, before, mid + [act], stack, existing, resolve, names + [act.name])
  {
  }

  lemma OwnNext(stack: seq<Declared>, i: nat, existing: map<string, Service>, self: Self)
    requires i < |stack|
    ensures IsOwn(stack[i], existing, self) ==>
              OwnOf(stack[..i + 1], existing, self) == OwnOf(stack[..i], existing, self) + [stack[i]] &&
              OthersOf(stack[..i + 1], existing, self) == OthersOf(stack[..i], existing, self)
    ensures !IsOwn(stack[i], existing, self) ==>
              OwnOf(stack[..i + 1], existing, self) == OwnOf(stack[..i], existing, self) &&
              OthersOf(stack[..i + 1], existing, self) == OthersOf(stack[..i], existing, self) + [stack[i].name]
  {
    assert stack[..i + 1][..i] == stack[..i];
  }

  /** The services found that are still to be reached, as they were read. */
  ghost predicate StillRead(found: map<string, Service>, lastRead: map<string, nat>, stack: seq<Declared>, i: nat) {
    forall k :: i <= k < |stack| && stack[k].name in found ==>
      stack[k].name in lastRead && lastRead[stack[k].name] == found[stack[k].name].version
  }

  /** Whether existing services may be written over. */
  predicate Claimed(existing: map<string, Service>, self: Self, recorded: Option<bool>) {
    existing == map[] || self.release || recorded == Some(true)
  }

  /** Why applying a service fails: a call did, or its write was lost as often as
      it is retried. */
  ghost predicate HadCause(sw: Swarm, faults: nat, conflicts: nat)
    reads sw
  {
    sw.faults > faults || sw.conflicts >= conflicts + MAX_CONFLICT_RETRIES
  }

  /** Creates or updates one service. */
  method ApplyOne(sw: Swarm, namespace: string, d: Declared, found: map<string, Service>, resolve: Resolve) returns (ok: bool)
    requires sw.Valid() && SpecFaithful(sw.norm, d.spec)
    requires d.name in found ==> ContentStorable(sw.norm, found[d.name].content) &&
                                 d.name in sw.lastRead && sw.lastRead[d.name] == found[d.name].version
    modifies sw, d.spec.container
    ensures sw.Valid() && SpecFaithful(sw.norm, d.spec)
    ensures sw.acts == old(sw.acts) ||
            (|sw.acts| == |old(sw.acts)| + 1 && sw.acts[..|old(sw.acts)|] == old(sw.acts) &&
             sw.acts[|old(sw.acts)|].name == d.name && Sends(sw.norm, sw.acts[|old(sw.acts)|].sent, d.spec) &&
             Fits(sw.acts[|old(sw.acts)|], found, resolve))
    ensures sw.listed == old(sw.listed)
    ensures ok ==> sw.acts != old(sw.acts)
    ensures sw.reports - sw.conflicts == old(sw.reports - sw.conflicts)
    ensures sw.faults >= old(sw.faults) && (ok ==> sw.faults == old(sw.faults))
    ensures sw.conflicts >= old(sw.conflicts) && (!ok ==> HadCause(sw, old(sw.faults), old(sw.conflicts)))
    ensures forall n :: n != d.name && n in old(sw.lastRead) ==> n in sw.lastRead && sw.lastRead[n] == old(sw.lastRead)[n]
  {
    hide Normaliser, Swarm.Valid, Storable, HoldsOneAt, SameImage, Faithful;
    if d.name in found {
      var r := UpdateService(sw, d.name, found[d.name], d.spec, resolve);
      return r == Updated;
    }
    var id: string := *;
    var auth := sw.Auth();
    if !auth { return false; }
    if d.spec.container != null {
      NormHolds(sw);
      FaithfulIsSame(sw.norm, d.spec.container.image, d.spec.manifest);
    }
    var sent := Content(ImageOf(d.spec), d.spec.manifest, 0, d.spec.rest);
    ok := sw.Create(d.name, id, namespace, sent, resolve != Never);
  }

  lemma NormHolds(sw: Swarm)
    requires sw.Valid()
    ensures Normaliser(sw.norm)
  {
  }

  /** One service of the stack: handed back if it is the process's own, written
      otherwise. */
  method ApplyNext(sw: Swarm, namespace: string, stack: seq<Declared>, i: nat, found: map<string, Service>,
                   resolve: Resolve, self: Self, held: seq<Declared>, ghost before: seq<Act>)
    returns (ok: bool, now: seq<Declared>)
    requires sw.Valid() && Ready(sw.norm, stack) && i < |stack|
    requires forall k :: i < k < |stack| ==> stack[k].name != stack[i].name
    requires StillRead(found, sw.lastRead, stack, i) && forall n :: n in found ==> ContentStorable(sw.norm, found[n].content)
    requires held == OwnOf(stack[..i], found, self)
    requires Did(sw.norm, before, sw.acts, stack, found, resolve, OthersOf(stack[..i], found, self))
    modifies sw, set d | d in stack && d.spec.container != null :: d.spec.container
    ensures sw.Valid() && Ready(sw.norm, stack)
    ensures sw.reports - sw.conflicts == old(sw.reports - sw.conflicts) && sw.listed == old(sw.listed)
    ensures sw.faults >= old(sw.faults) && (ok ==> sw.faults == old(sw.faults))
    ensures sw.conflicts >= old(sw.conflicts) && (!ok ==> HadCause(sw, old(sw.faults), old(sw.conflicts)))
    ensures ok ==> StillRead(found, sw.lastRead, stack, i + 1) && now == OwnOf(stack[..i + 1], found, self)
    ensures ok ==> Did(sw.norm, before, sw.acts, stack, found, resolve, OthersOf(stack[..i + 1], found, self))
    ensures !ok ==> now == held && (Did(sw.norm, before, sw.acts, stack, found, resolve, OthersOf(stack[..i], found, self)) ||
                                    Did(sw.norm, before, sw.acts, stack, found, resolve, OthersOf(stack[..i + 1], found, self)))
  {
    hide Normaliser, Swarm.Valid, ContentStorable, SpecFaithful, OwnOf, OthersOf, Did, Sends;
    var d := stack[i];
    OwnNext(stack, i, found, self);
    if IsOwn(d, found, self) { return true, held + [d]; }
    ghost var mid := sw.acts;
    ok := ApplyOne(sw, namespace, d, found, resolve);
    now := held;
    if sw.acts != mid {
      assert sw.acts == mid + [sw.acts[|mid|]];
      assert SentFor(sw.norm, sw.acts[|mid|], stack, found, resolve);
      DidNext(sw.norm, before, mid, sw.acts[|mid|], stack, found, resolve, OthersOf(stack[..i], found, self));
    }
  }

  method ApplyAll(sw: Swarm, namespace: string, stack: seq<Declared>, found: map<string, Service>,
                  resolve: Resolve, self: Self)
    returns (ok: bool, held: seq<Declared>, ghost reached: nat)
    requires sw.Valid() && Ready(sw.norm, stack)
    requires forall j, k :: 0 <= j < k < |stack| ==> stack[j].name != stack[k].name
    requires StillRead(found, sw.lastRead, stack, 0) && forall n :: n in found ==> ContentStorable(sw.norm, found[n].content)
    modifies sw, set d | d in stack && d.spec.container != null :: d.spec.container
    ensures sw.Valid() && Ready(sw.norm, stack)
    ensures sw.reports - sw.conflicts == old(sw.reports - sw.conflicts) && sw.listed == old(sw.listed)
    ensures sw.faults >= old(sw.faults) && (ok ==> sw.faults == old(sw.faults))
    ensures sw.conflicts >= old(sw.conflicts) && (!ok ==> HadCause(sw, old(sw.faults), old(sw.conflicts)))
    ensures ok ==> held == OwnOf(stack, found, self)
    ensures ok ==> Did(sw.norm, old(sw.acts), sw.acts, stack, found, resolve, OthersOf(stack, found, self))
    ensures !ok ==> reached < |stack| && held == OwnOf(stack[..reached], found, self)
    ensures !ok ==> (Did(sw.norm, old(sw.acts), sw.acts, stack, found, resolve, OthersOf(stack[..reached], found, self)) ||
                     Did(sw.norm, old(sw.acts), sw.acts, stack, found, resolve, OthersOf(stack[..reached + 1], found, self)))
  {
    held, reached := [], 0;
    ghost var before := sw.acts;
    NothingDone(sw.norm, before, stack, found, resolve, self);
    hide Normaliser, Swarm.Valid, ContentStorable, SpecFaithful, OwnOf, OthersOf, Did, Ready, StillRead;
    for i := 0 to |stack|
      invariant sw.Valid() && Ready(sw.norm, stack) && StillRead(found, sw.lastRead, stack, i)
      invariant held == OwnOf(stack[..i], found, self)
      invariant sw.reports - sw.conflicts == old(sw.reports - sw.conflicts)
      invariant sw.faults == old(sw.faults) && sw.conflicts >= old(sw.conflicts) && sw.listed == old(sw.listed)
      invariant Did(sw.norm, before, sw.acts, stack, found, resolve, OthersOf(stack[..i], found, self))
    {
      reached := i;
      ok, held := ApplyNext(sw, namespace, stack, i, found, resolve, self, held, before);
      if !ok { return; }
    }
    assert stack[..|stack|] == stack;
    ok := true;
  }

  /** ApplyServices. On success every declared service but the process's own was
      written, once, in the stack's order and with the manifest's image, and its
      own is handed back instead of written; a failure stops there. A namespace
      somebody else's services run under is refused before anything is written,
      and no service that the stack does not declare is ever touched. */
  method ApplyServices(sw: Swarm, namespace: string, stack: seq<Declared>, resolve: Resolve, self: Self, recorded: Option<bool>)
    returns (r: Applied, held: seq<Declared>, ghost existing: map<string, Service>, ghost reached: nat)
    requires sw.Valid() && Ready(sw.norm, stack)
    requires forall j, k :: 0 <= j < k < |stack| ==> stack[j].name != stack[k].name
    modifies sw, set d | d in stack && d.spec.container != null :: d.spec.container
    ensures sw.Valid() && Ready(sw.norm, stack)
    ensures sw.reports - sw.conflicts == old(sw.reports - sw.conflicts)
    ensures r == Done ==> sw.faults == old(sw.faults)
    ensures r == Unlisted ==> sw.faults > old(sw.faults)
    ensures r != Unlisted ==> sw.listed == (namespace, existing)
    ensures r == Unread ==> Unreadable(existing, self, recorded)
    ensures r == Stopped ==> HadCause(sw, old(sw.faults), old(sw.conflicts))
    ensures r == Done ==> held == OwnOf(stack, existing, self)
    ensures r == Done ==> Did(sw.norm, old(sw.acts), sw.acts, stack, existing, resolve, OthersOf(stack, existing, self))
    ensures r == Stopped ==> reached < |stack| && held == OwnOf(stack[..reached], existing, self)
    ensures r == Stopped ==> (Did(sw.norm, old(sw.acts), sw.acts, stack, existing, resolve, OthersOf(stack[..reached], existing, self)) ||
                              Did(sw.norm, old(sw.acts), sw.acts, stack, existing, resolve, OthersOf(stack[..reached + 1], existing, self)))
    ensures r != Done && r != Stopped ==> sw.acts == old(sw.acts) && held == []
    ensures r == Done || r == Stopped ==> Claimed(existing, self, recorded)
    ensures r == Foreign <==> !Claimed(existing, self, recorded) && recorded.Some?
  {
    hide Normaliser, Swarm.Valid, ContentStorable, SpecFaithful, OwnOf, OthersOf, Did, Ready, StillRead;
    held, existing, reached := [], map[], 0;
    var listed, found := sw.List(namespace);
    if !listed { return Unlisted, [], existing, 0; }
    existing := found;
    FoundStorable(sw, found, stack);
    hide Claimed;
    var refusal := RejectForeign(found, self, recorded);
    if refusal.Some? { return refusal.value, [], existing, 0; }
    var ok;
    ok, held, reached := ApplyAll(sw, namespace, stack, found, resolve, self);
    r := if ok then Done else Stopped;
  }

  /** A read the decision needs has failed: whether a record exists, or, for a self
      release whose namespace is its own, which service is the process's. */
  predicate Unreadable(existing: map<string, Service>, self: Self, recorded: Option<bool>) {
    if self.release then self.id.None? else existing != map[] && recorded.None?
  }

  /** rejectForeignNamespace, and the read a self release needs. */
  method RejectForeign(existing: map<string, Service>, self: Self, recorded: Option<bool>) returns (r: Option<Applied>)
    ensures r.None? ==> Claimed(existing, self, recorded)
    ensures r == Some(Foreign) <==> !Claimed(existing, self, recorded) && recorded.Some?
    ensures r == Some(Unread) <==> Unreadable(existing, self, recorded)
    ensures r.Some? ==> r.value == Foreign || r.value == Unread
  {
    if existing != map[] && !self.release {
      if recorded.None? { return Some(Unread); }
      if !recorded.value { return Some(Foreign); }
    }
    if self.release && self.id.None? { return Some(Unread); }
    return None;
  }

  lemma FoundStorable(sw: Swarm, found: map<string, Service>, stack: seq<Declared>)
    requires sw.Valid() && forall n :: n in found ==> n in sw.services && sw.services[n] == found[n]
    requires forall n :: n in found ==> n in sw.lastRead && sw.lastRead[n] == found[n].version
    ensures forall n :: n in found ==> ContentStorable(sw.norm, found[n].content)
    ensures StillRead(found, sw.lastRead, stack, 0)
  {
  }

  lemma NothingDone(norm: string -> string, acts: seq<Act>, stack: seq<Declared>, existing: map<string, Service>, resolve: Resolve, self: Self)
    ensures OwnOf(stack[..0], existing, self) == []
    ensures Did(norm, acts, acts, stack, existing, resolve, OthersOf(stack[..0], existing, self))
  {
  }

  lemma {:induction false} OwnMembers(stack: seq<Declared>, existing: map<string, Service>, self: Self, k: nat)
    requires k < |OwnOf(stack, existing, self)|
    ensures OwnOf(stack, existing, self)[k] in stack && IsOwn(OwnOf(stack, existing, self)[k], existing, self)
    decreases |stack|
  {
    var n := |stack| - 1;
    if k < |OwnOf(stack[..n], existing, self)| {
      OwnMembers(stack[..n], existing, self, k);
    }
  }

  /** What is handed back, and what is written: of the declared services the process's
      own, when it deploys the stack it runs as and knows its own id, and every other. */
  lemma {:induction false} OwnExactly(stack: seq<Declared>, existing: map<string, Service>, self: Self, d: Declared)
    ensures d in OwnOf(stack, existing, self) <==>
            d in stack && self.release && d.name in existing && self.id == Some(existing[d.name].id) && existing[d.name].id != ""
    ensures forall n :: n in OthersOf(stack, existing, self) <==>
              exists i :: 0 <= i < |stack| && stack[i].name == n && stack[i] !in OwnOf(stack, existing, self)
    decreases |stack|
  {
    if stack != [] {
      var n := |stack| - 1;
      var before := stack[..n];
      OwnExactly(before, existing, self, d);
      assert stack == before + [stack[n]];
      assert forall i :: 0 <= i < n ==> before[i] == stack[i];
      OwnIsOwn(stack, existing, self);
      OwnIsOwn(before, existing, self);
      hide OwnOf;
    }
  }

  lemma {:induction false} OwnIsOwn(stack: seq<Declared>, existing: map<string, Service>, self: Self)
    ensures forall d :: d in OwnOf(stack, existing, self) <==> d in stack && IsOwn(d, existing, self)
    decreases |stack|
  {
    if stack != [] {
      var n := |stack| - 1;
      OwnIsOwn(stack[..n], existing, self);
      assert stack == stack[..n] + [stack[n]];
      hide IsOwn;
    }
  }

  /** The process's own service is handed back at most once: ids are unique. */
  lemma {:induction false} OwnIsHeldOnce(stack: seq<Declared>, existing: map<string, Service>, self: Self)
    requires forall j, k :: 0 <= j < k < |stack| ==> stack[j].name != stack[k].name
    requires forall m, n :: m in existing && n in existing && existing[m].id == existing[n].id ==> m == n
    ensures |OwnOf(stack, existing, self)| <= 1
    decreases |stack|
  {
    if stack != [] {
      var n := |stack| - 1;
      OwnIsHeldOnce(stack[..n], existing, self);
      if OwnOf(stack[..n], existing, self) != [] {
        OwnMembers(stack[..n], existing, self, 0);
        var other := OwnOf(stack[..n], existing, self)[0];
        var j :| 0 <= j < n && stack[..n][j] == other;
        assert stack[j].name != stack[n].name;
        assert !IsOwn(stack[n], existing, self);
      }
    }
  }

  /** The held write, made last: the service is read again first, and the write is
      against what that read, or a later one, found. */
  method ReplaceSelf(sw: Swarm, d: Declared, id: string, resolve: Resolve) returns (r: Result)
    requires sw.Valid() && SpecFaithful(sw.norm, d.spec)
    modifies sw, d.spec.container
    ensures sw.Valid()
    ensures sw.acts == old(sw.acts) ||
            (|sw.acts| == |old(sw.acts)| + 1 && sw.acts[..|old(sw.acts)|] == old(sw.acts) &&
             Writes(sw.norm, sw.acts[|old(sw.acts)|], d.name, id, d.spec))
    ensures r == Updated ==> sw.acts != old(sw.acts)
    ensures sw.acts != old(sw.acts) ==> sw.inspected > old(sw.inspected) && d.name in sw.lastRead &&
                                        sw.acts[|sw.acts| - 1].against == sw.lastRead[d.name]
    ensures sw.reports - sw.conflicts == old(sw.reports - sw.conflicts)
    ensures sw.faults == old(sw.faults) + if r == Failed then 1 else 0
    ensures r == GaveUp ==> sw.acts == old(sw.acts) && sw.conflicts == old(sw.conflicts) + MAX_CONFLICT_RETRIES
  {
    hide Normaliser, Swarm.Valid, Storable, HoldsOneAt, SameImage, Faithful;
    var live := sw.Inspect(d.name, id);
    if live.None? { return Failed; }
    ReadIsStorable(sw, d.name);
    r := UpdateService(sw, d.name, live.value, d.spec, resolve);
  }
}
