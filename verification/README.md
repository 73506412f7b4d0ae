# A model of a GitOps controller for Docker Swarm

The controller keeps the stacks of a Docker Swarm equal to what a set of
applications declares in git. This project models its hard parts and proves what
they promise: what a sweep may delete, what counts as drift, what a stack may reach
outside itself for, how a write meets other writers, and how logs and events are
delivered. Running `dafny verify dfyconfig.toml` here checks all of it.

Each module follows one part of the repository.

| module | part |
|---|---|
| `Names`, `Installs` | owner stamps and release names; which releases may be installed together |
| `Gate`, `Admission` | the gate on what a stack reaches for, and the audit of its allowlist; what the gate's answers mean |
| `Config`, `AppSet`, `Passes`, `Runs` | the applications file, its loader, one pass of the app-set loop, and every run of passes |
| `Prune`, `Claims`, `Removal`, `Reclaim` | which releases and resources are swept, how a release is taken down, and the cached directories |
| `Services`, `Provenance` | applying services by compare-and-swap; creating and adopting secrets and configs |
| `Specs`, `Drift` | the live comparison of service specs |
| `Silence`, `Reporting`, `Renderings` | what its silence says of the specs, and what it reports; the renderings it compares |
| `LogOutlet`, `LogLines`, `LogFrames`, `LogLabels` | service logs: delivery, line assembly, frames, labels |
| `EventStream` | the event ring and its subscribers |
| `Paths` | lexical path containment |
| `Text` | strings, sorting, permutations, shared by the rest |

Objects whose methods change their fields are classes here (`AppSet.Loop`,
`AppSet.Loader`, `Config.File`, `LogLines.LogSink`, `LogOutlet.Outlet`,
`LogLabels.Labels`, `EventStream.Stream`, `Reclaim.Sweeper`). A loop's method is
proved equal to a function of the state before it, and the promises are lemmas about
that function. A container spec is an object because an update writes its image
through a pointer that the next attempt reads again.

The daemon, the reconciler and every other process on the swarm are arbitrary. In
`Removal`, `Services` and `Provenance` the daemon is a class whose calls may fail
with or without having worked, and which others change between any two calls; in
`Passes` and `Prune` every failure and every answer is an input.

What is taken for granted:

- names are ASCII, so folding case keeps their length;
- two documents with one digest are one document;
- normalising an image reference is a function that is idempotent and leaves a digest
  on a normalised reference alone, and a stored reference holds at most one digest
  (`Services.TwoAtsMayLoseIt` shows what a second would do);
- a release record's config is named after its release and labelled with it;
- a secret or config is looked up by its exact name: none is declared under a name that
  differs only in case from that of one on the swarm;
- what an application has planned is a plan of a spec the run has met under its name
  (`Runs.Tracks`);
- the daemon's ids are never used again, and names are unique on it;
- what the controller itself has mounted has been read before the gate is asked;
- a stack declares each service name once, and each with a container spec of its own;
- only a controller's deploy writes the creation marker, as it creates an object, and
  nobody adds or takes it off later; other controllers are among the others;
- while a release is taken down its resources and volumes keep their stack label, and
  only an uninstall deletes release records.

Some promises hold only in part, and the model says exactly when:

- an application reported pruned may have a stack left standing as the controller's own
  (`Prune.PrunedCanLeaveOneStanding`, `Prune.OneStandingIsReported`);
- adopting the controller's own stack may record a release that collides with another
  (`Installs.DeployKeepsApart`, `Installs.SelfDeployMayCollide`);
- an object one stack's deploy created is offered to another stack's sweep once that
  stack has taken it over under its allowlist (`Provenance.AdoptionOffersExactly`,
  `Provenance.AdoptedMayBeOffered`);
- a release can lose its records while a volume of its own stays, shadowed by a cluster
  volume (`Removal.LeftOutExactly`, `Removal.ShadowedVolumeIsLeft`);
- a release moved to an application that already runs can be swept before that
  application plans again (`Runs.HeirKeepsTheRelease`, `Runs.MovedToRunningIsSwept`);
- a live comparison compares renderings, and specs whose values hold what a rendering is
  joined with can differ in silence (`Silence.Plain` says which: `Silence.SilentMeans`,
  `Silence.RenderingsMeet`, `Silence.JoinsMeet`);
- a twice-kept image can stop being the manifest's if a reference holds two digests
  (`Services.KeptTwice`, `Services.TwoAtsMayLoseIt`).

## Model

| member | source | states |
|---|---|---|
| `Names.StampIsExact` | `application/owner.go:47-85` | reading a stamp inverts writing it: an id is read as application a exactly when it is the stamp this controller writes for a and a can be named in a stamp |
| `Names.LastSlashSplits` | `application/owner.go:47-85` | the text before the last slash and the name after it are determined by the whole |
| `Names.StampsKeepControllersApart` | `application/owner.go:47-85` | two controllers recognise a common stamp if and only if they stamp with the same effective id, whatever the ids contain |
| `Names.ValidIDsAreUnambiguous` | `application/owner.go:95-105` | with an id that validates, the first slash after the prefix ends the id in every stamp that is read |
| `Names.ValidIDsAre` | `application/owner.go:95-105` | which ids validate, by code point: not empty, without slash, colon or white space; and which error the others get |
| `Names.CollideIsExact` | `application/owner.go:119-122` | two different release names collide if and only if some names they declare scope to one name without regard to case |
| `Text.FoldsAlike` | `application/owner.go:119-122` | two names fold alike exactly when they differ at most in the case of letters A to Z |
| `Names.ScopeDecidesOwner` | `backend/backend.go:671-673` | a name scoped under two releases means that the two are one or collide |
| `Installs.RecordFilters` | `backend/backend.go:1462-1514` | the prefixes asked of the daemon are those of the release's own records, of every release extending it and of each release it extends |
| `Installs.RecordsAre` | `backend/service.go:340-343` | what a release record is, by its labels: typed as one and of no stack |
| `Installs.VariantsAre` | `backend/backend.go:1493-1508` | which names are case variants, character by character, and which can share volumes: those of which one, as written, is the other followed by an underscore and more |
| `Installs.FiltersKeepWhatMatters` | `backend/backend.go:1462-1514` | no record of the release, of a case variant or of a colliding release is filtered out |
| `Installs.RejectRecordedCollision` | `backend/backend.go:1462-1514` | the filtered lookup decides as a scan of every record would, blames the least colliding release, and warns of shared volumes exactly when there are some |
| `Installs.DeployKeepsApart` | `backend/backend.go:1462-1514` | an accepted deploy leaves recorded releases non-colliding exactly when the release was recorded already or collides with none |
| `Installs.SelfDeployMayCollide` | `backend/backend.go:1462-1514` | the exemption of the controller's own stack admits a colliding name that any other deploy is refused |
| `Installs.InstalledReleasesStayApart` | `backend/backend.go:1462-1514` | from a non-colliding start no sequence of ordinary deploys and uninstalls records two releases that collide or whose scoped names can meet |
| `Installs.ScopedNamesHaveOneOwner` | `backend/backend.go:671-673` | in every state such a sequence reaches, a scoped name belongs to one installed release |
| `Gate.RejectForbiddenResources` | `backend/backend.go:290-508` | the gate returns the first of its answers, in its own order, that is not a pass; what an answer means is `Admission.AcceptsExactly` and `Admission.RefusalsAreHonest` |
| `Gate.AcceptsIsPasses` | `backend/backend.go:290-508` | the first answer is a pass exactly when every external, mounted, declared and joined name passes its own check, a step towards `Admission.AcceptsExactly` |
| `Gate.UnpermittedNames` | `backend/allowaudit.go:28-118` | the audit fails exactly when a read it makes does, and otherwise returns sorted lists without duplicates of exactly the names the stack reaches for and the allowlist lacks |
| `Gate.AcceptanceIsMonotone` | `backend/backend.go:290-508` | a larger allowlist never turns an accepted stack away |
| `Gate.NeedIsNecessary` | `backend/allowaudit.go:28-118` | every allowlist that includes the present one and makes the gate accept includes what the audit returns |
| `Gate.NeedSuffices` | `backend/allowaudit.go:28-118` | if some allowlist makes the gate accept, adding what the audit returns does |
| `Gate.AuditIsTheLeastRepair` | `backend/allowaudit.go:28-118` | adding the audit's result is the least change of the allowlist that makes the gate accept, whenever any change does |
| `Gate.AuditIsSilentWhenAccepted` | `backend/allowaudit.go:28-118` | for a stack the gate can be made to accept, the audit names nothing exactly when the gate accepts as things are |
| `Admission.AcceptsExactly` | `backend/backend.go:290-508` | in the fields of stack, swarm and controller: a stack is accepted exactly when no external name it reaches for is reserved or like a record; what it mounts it declares, or is let to mount, and that is never a record, nor wired or the controller's own except by its own stack; what it declares is nobody else's, nor wired, mounted by the controller or like a record; and it joins and declares no network of the controller's stack, nor declares one another holds |
| `Admission.RefusalsAreHonest` | `backend/backend.go:290-508` | every refusal names something of the stack and what is wrong with it, in the same fields, and no answer means that a read failed |
| `Config.File.ApplyDefaults` | `config/config.go:139-171` | every entry gets the default drift detection for its kind and, for a chart without a release name, its own name |
| `Config.File.Validate` | `config/config.go:173-238` | accepts exactly the sets whose entries are sound and no two of which share a name, a stack without regard to case, or the self mark; otherwise names the first entry and the first check that fails |
| `Config.Check` | `config/config.go:183-236` | one entry is refused exactly for being unsound or clashing with an earlier one, in the order of the checks |
| `Config.Parse` | `config/config.go:99-124` | a document is parsed to exactly its accepted set, or refused; which documents load, and as what, are `Config.LoadsExactly` and `Config.LoadsWhatIsListed` |
| `Config.LoadsWhatIsListed` | `config/config.go:104-171` | what loads is every entry that is not blank, in order and one for one, each as written but for an unset drift detection and an unset release name, which get their defaults |
| `Config.LoadsExactly` | `config/config.go:99-238` | a document loads exactly when it lists an application, or is a single document with an empty list, and its listed applications are well named, by code point, consistent, and apart from each other in name and self mark |
| `Config.EmptyOnlyWhenDeclared` | `config/config.go:108-137` | an empty set is loaded exactly from a single document that writes an empty list |
| `AppSet.Loader.Load` | `appset/appset.go:169-195` | a load answers what the document declares (`Config.LoadsWhatIsListed`) whether or not it was parsed again, and nothing on a failure; the current set is the last one accepted, and set, digest and revision move as one |
| `AppSet.LoadsAreUnique` | `config/config.go:183-197` | whatever loads has unique application names |
| `AppSet.Diff` | `appset/loop.go:540-570` | what to add, replace and remove is told from the running set, each list in the order of its source |
| `AppSet.Unreconciled` | `appset/loop.go:391-399` | the running applications that have not planned, in order |
| `AppSet.Declared` | `appset/loop.go:410-423` | every release a running application declares, once, in the order first met |
| `AppSet.Loop.Apply` | `appset/loop.go:432-479` | removals, replacements, additions, each attempted: the state and the failures are those of the pass function |
| `AppSet.Loop.PruneDeparted` | `appset/loop.go:291-355` | the gates in their order, the empty count moved before them, and the sweep's outcome recorded |
| `AppSet.Loop.Record` | `appset/loop.go:599-614` | staleness is always recorded; a cancellation leaves the last error alone |
| `AppSet.Loop.ReclaimDeparted` | `appset/loop.go:366-379` | one reclaiming sweep, told to keep what the reconciler holds; it fails exactly when there is a reclaimer and a root could not be read or a place due for removal could not be removed |
| `AppSet.RunningKeepsItsCaches` | `appset/loop.go:358-365` | no directory of a running application is ever a candidate of it |
| `AppSet.Loop.Once` | `appset/loop.go:212-258` | a failed load changes nothing but the report; otherwise apply, sweep behind a clean apply, reclaim either way, record; the failures recorded include the reclaiming sweep's exactly when that sweep fails |
| `Passes.ErrorsAreFailures` | `appset/loop.go:432-479` | a pass reports an application exactly when the one change it needed was refused |
| `Passes.ApplySettles` | `appset/loop.go:432-479` | after apply every application whose change failed is as it was and every other as the set declares it |
| `Passes.RediffIsTheFailures` | `appset/loop.go:540-570` | diffing again finds exactly the changes that failed |
| `Runs.AppliesAreReported` | `appset/loop.go:432-479` | an application is orphaned when its removal succeeds and until it joins again, which also clears that it was pruned; nothing else of an apply moves it |
| `Runs.SweepsAreReported` | `appset/loop.go:646-657` | what a sweep reports pruned, and only that, moves from orphaned to pruned |
| `Runs.CleanApplyConverges` | `appset/loop.go:432-479` | an error-free apply makes the running set the declared one |
| `Runs.PassKeeps` | `appset/loop.go:212-258` | one pass keeps running, orphaned and pruned disjoint and without duplicates |
| `Runs.ReportsStayConsistent` | `appset/loop.go:618-657` | so does every run of passes |
| `Runs.GateIsOpen` | `appset/loop.go:291-355` | a pass sweeps exactly when pruning is on, load and apply succeeded, every running application has planned, nothing drains, and an empty set was empty before |
| `Runs.DeletesExactly` | `appset/loop.go:291-355` | a pass tries to delete a release if and only if its gate is open, it is listed with exactly the stamp this controller writes on that release for an application that the set does not declare, and no running application declares it |
| `Runs.EmptyBeforeIs` | `appset/loop.go:296-299` | the confirmation is that the last pass that reached the sweep loaded an empty set |
| `Runs.SweepsAreSafe` | `appset/loop.go:237-243` | in every run, all of these conditions hold of every release a pass tries to delete |
| `Runs.HandoverIsDeclared` | `appset/loop.go:301-312` | behind the gate a release handed from one name to another is always declared by one of them, if each that runs and has planned declares it |
| `Runs.RenameKeepsTheRelease` | `appset/loop.go:301-312` | in any one pass, a release that every running and planned heir declares is never deleted |
| `Runs.HeirsDeclare` | `reconcile/reconcile.go:353-397` | over every run in which adding starts without a plan and replacing keeps one, whatever runs under the names and has planned declares the release, if every plan of every spec under them does |
| `Runs.RenamesAreSafe` | `appset/loop.go:301-312` | so no pass of such a run whose set declares one of the names tries to delete the release, however changes fail or the names alternate |
| `Runs.HeirKeepsTheRelease` | `appset/loop.go:301-312` | a departed application's release that only one heir could declare is attempted, with nothing else holding the sweep, exactly when the heir has planned and its last plan does not declare the release |
| `Runs.MovedToRunningIsSwept` | `appset/loop.go:30-33` | replacing keeps a status: a release moved to an application that already runs is attempted while that application's last plan is of its old spec |
| `Runs.ControllersStayApart` | `prune/prune.go:839-848` | a release that carries the stamp of one controller is never attempted by another of a different id, whatever either did before |
| `Prune.DepartedApps` | `prune/prune.go:796-827` | the one-pass grouping with its index is the grouping by application in first-met order |
| `Prune.GroupsPartition` | `prune/prune.go:796-827` | every doomed release is in exactly one group and no other is in any; groups are not empty and no application has two |
| `Prune.OwnerIsExact` | `prune/prune.go:829-848` | a release is owned for an application exactly when it carries the stamp this controller writes for it on a release of that name: a stamp copied from another release proves nothing |
| `Prune.GroupsFollowStamps` | `prune/prune.go:796-827` | each application's group holds exactly the undeclared releases stamped for it, if it is undesired |
| `Prune.SweptExactly` | `prune/prune.go:796-827` | a name is swept exactly when it is not declared and a release of that name is listed with the very stamp this controller writes on it for some undesired application |
| `Prune.ControllersSweepApart` | `prune/prune.go:839-848` | no release is doomed for two controllers with different ids |
| `Prune.UninstallAll` | `prune/prune.go:646-675` | the failures of one application in order, and whether a stack was left standing as the controller's own |
| `Prune.StillListed` | `prune/prune.go:730-747` | the failures whose releases the swarm still lists, in order |
| `Prune.SweepGroup` | `prune/prune.go:641-706` | an application is reported pruned exactly when nothing failed and nothing was left, or when no failure is still listed |
| `Prune.Departed` | `prune/prune.go:624-708` | the uninstalls attempted, the applications reported and whether an error is reported |
| `Prune.PrunedAreDeparted` | `prune/prune.go:624-708` | the applications reported pruned are undesired and reported once |
| `Prune.PrunedCanLeaveOneStanding` | `prune/prune.go:695-702` | a truthful listing can have an application reported pruned with a stack of it left standing exactly when one uninstall was refused as the controller's own and another failed |
| `Prune.OneStandingIsReported` | `prune/prune.go:695-702` | so does the group of a release refused as the own stack and one whose removal reported a failure although it worked: reported pruned, without an error, with one standing |
| `Claims.Undeclared` | `prune/prune.go:884-902` | the running names that are not declared, sorted |
| `Claims.Claim` | `prune/prune.go:917-934` | the candidates a revision declared and those it did not, each in order |
| `Claims.WalkIsUnion` | `prune/prune.go:904-934` | asking revisions one at a time leaves exactly what their union would leave, and every candidate is claimed or left once |
| `Claims.NothingLeftNothingClaimed` | `prune/prune.go:904-934` | once nothing is left, older revisions claim nothing |
| `Claims.ClaimedIsProved` | `prune/prune.go:850-934` | a resource is claimed exactly when it runs, is not declared, and a recorded revision declared it |
| `Removal.RemoveKind` | `backend/backend.go:1703-1753` | one kind of a stack's resources: listed and not refused means that what was there is gone |
| `Removal.KindRemains` | `backend/backend.go:1784-1818` | an empty re-listing means that what was there of the kind is gone, and one that finds something that it is there |
| `Removal.StackRemains` | `backend/backend.go:1784-1818` | the re-check over the four kinds: nothing found means that what was there of the stack is gone, something found that it is there |
| `Removal.RemoveStack` | `backend/backend.go:1683-1777` | success means that everything of the stack that was there is gone, whatever the calls said; a failure, unless the own namespace or a listing could not be read, means that something of the stack is still there, so that one that leaves nothing behind is a success; nothing of another stack and no possible record is removed; no name and the controller's own are refused |
| `Removal.Settle` | `prune/prune.go:358-377` | a volume is settled when its name no longer answers with the release's, and not settled only after every attempt its patience allows has failed |
| `Removal.OwnVolumes` | `prune/prune.go:466-481` | exactly the listed volumes whose name begins with the release and an underscore |
| `Removal.PurgeNode` | `prune/prune.go:411-448` | none of the release's own volumes that were on the node is left but those the listing found shadowed by a cluster volume, whoever's, and none of these was removed; every volume freed carries the release's label and a name within it; it fails only when the listing failed or a removal failed as often as patience allows |
| `Removal.PurgeNodes` | `prune/prune.go:250-319` | success means that there were nodes and that each was purged, short of shadowed volumes; it fails only without nodes, or when a node could not be reached, listed or settled, and always when one could not be reached or listed |
| `Removal.TakeDown` | `prune/prune.go:166-177` | if the records are lost, everything that was there of the stack is gone, and so are its own volumes in reach but those this call found shadowed; success deletes the records; no other release loses any, no resource of another stack and no volume named outside the release is removed; it fails only when a call did, or for a refused name or no nodes |
| `Removal.Recoverable` | `prune/prune.go:149-177` | in every run of sweeps of any releases, failures and other writers: whenever a release loses its records, it is to a sweep of that release, and ever after nothing stands of what was there to be removed of it when that sweep began, its volumes in the sweep's reach included, short of those the sweep found shadowed |
| `Removal.SweepRepeatedly` | `prune/prune.go:166-177` | any number of sweeps, each with its own nodes in reach, with others writing in between, is such a run: a release that had records and has none lost them last to one of the sweeps, and nothing stands of what was there to be removed when that sweep, or the run, began, short of shadowed volumes; no other release loses its records, and nothing but the release's own was removed or freed |
| `Removal.LeftOutExactly` | `backend/resource.go:387-418` | an own volume is left out of the purge exactly when some cluster volume listed beside it, whatever its labels, has its name without regard to case or an id its name begins |
| `Removal.ShadowedVolumeIsLeft` | `backend/resource.go:387-418` | web_data beside an unlabelled cluster volume Web_Data is left standing by a purge that succeeds |
| `Services.StoredIsSame` | `compose/image.go:42-69` | what the daemon stores for an image is that image, with a digest exactly when one was found or named |
| `Services.KeptTwice` | `compose/image.go:42-45` | an image kept from a live service that matched an already kept one is still the manifest's exactly when it is that one or that one was the manifest's own reference |
| `Services.OneAtKeepsTheImage` | `compose/image.go:62-69` | with at most one digest per stored reference that is always so |
| `Services.TwoAtsMayLoseIt` | `compose/image.go:62-69` | with two it need not be |
| `Services.PrepareUpdate` | `backend/service.go:450-509` | the image written through the shared pointer, the registry question, and the counters carried forward are those of the preparation function |
| `Services.PrepareStaysFaithful` | `backend/service.go:481-501` | preparing from a faithful image yields a faithful image whatever the live service has become |
| `Services.FreshIsFaithful` | `backend/service.go:145-180` | a manifest's image as written is where every service starts |
| `Services.UpdateService` | `backend/service.go:413-445` | at most one write lands, against the version last read and with the manifest's image; on every way out each lost write has been reported, once; after three losses nothing was written; it fails otherwise exactly when a call did |
| `Services.CorrectionIsAFixpoint` | `backend/service.go:481-508` | preparing the manifest against what a write stored sends back exactly what is stored, unless resolution is always asked for |
| `Services.RejectForeign` | `backend/service.go:301-322` | existing services are written over only with a record or by the self release; both refusals exactly as decided by what was read |
| `Services.ApplyServices` | `backend/service.go:145-180` | every declared service but the process's own is written once, in order and with its image: updated by its id if the stack's listing found it, created otherwise; its own is handed back; a refused namespace is not touched; every lost write was reported; it stops only for a failed call or a write lost three times |
| `Services.OwnExactly` | `backend/service.go:212-224` | what is handed back is exactly the declared service the controller itself runs as, when it deploys its own stack and knows its own id; every other is written |
| `Services.OwnIsHeldOnce` | `backend/service.go:212-224` | the own write is handed back at most once |
| `Services.ReplaceSelf` | `backend/service.go:216-223` | the held write re-reads the service, and is against the version such a read found; it fails exactly when a call did |
| `Provenance.ApplyOne` | `backend/resource.go:162-238` | one secret or config: not found, it is created with the marker and is an object this stack's deploy made; found, it is relabelled keeping the marker it has and gaining none, and from another stack only under an allowlist entry; refused for other content or an unpermitted owner, and failed exactly when a call failed |
| `Provenance.Adopt` | `backend/resource.go:199-249` | the relabelled object keeps its data, its id and its marker, and is moved to the stack only under an allowlist entry |
| `Provenance.AdoptionOffersExactly` | `backend/resource.go:199-249` | adopting an object of another stack hands it to this one's sweep exactly when it carries the marker and the allowlist names it |
| `Provenance.AdoptedMayBeOffered` | `backend/live.go:172-206` | x_cfg, made by a deploy of x and adopted by y under its allowlist, is offered to y's sweep |
| `Provenance.AcceptedIsPlain` | `backend/backend.go:414-463` | the gate lets no declaration through that carries a reserved label, the marker included |
| `Provenance.DeployObjects` | `backend/backend.go:1631-1641` | a refused stack touches nothing; success means that every declared secret and then every config was written, one for one and in order; it fails only for the gate, a failed call, or an object stored with other data or that the allowlist does not name; it makes only new objects, each for the stack, and moves only what its allowlist names |
| `Provenance.CreateRecord` | `backend/resource.go:258-270` | a release record is stored without the marker, as no deploy's object |
| `Provenance.Live` | `backend/live.go:172-206` | what the sweep may consider is exactly what carries the stack's label and the marker, release records apart: made by a deploy of the stack, or of another and moved to it since, and never what no deploy made |
| `Provenance.DeployRepeatedly` | `backend/resource.go:33-68` | over every run of deploys, data never changes, what a deploy stored carries the marker for good, what was stored without it never gains one, and this controller moves an object only under an allowlist entry |
| `Specs.KeyedIsEmpty` | `drift/live.go:1125-1134` | two keyed collections are reported alike exactly when they are equal |
| `Specs.KeyedReports` | `drift/live.go:454-468` | every difference of a keyed collection is reported as what it is, and nothing else |
| `Specs.ValuesAreNotShown` | `drift/live.go:437-453` | no report depends on the value of an environment variable |
| `Specs.ModesAgree` | `drift/live.go:184-195` | modes and counts, with the daemon's defaults, are silent exactly when their normal forms agree |
| `Specs.ResourcesAgree` | `drift/live.go:330-376` | so are resources, a missing struct being a zero one |
| `Specs.StructsAgree` | `drift/live.go:913-973` | so are update, rollback and restart policies under the enum and pointer defaults |
| `Specs.ContainersAgree` | `drift/live.go:696-872` | so are the container's literal fields and the log driver |
| `Specs.SilentExactly` | `drift/live.go:176-219` | a comparison is empty if and only if the normal forms agree, the images are the same reference and the networks agree as far as they can be named; what that says of the specs is `Silence.SilentMeans` |
| `Silence.SilentMeans` | `drift/live.go:176-219` | in the fields of the specs: a comparison is empty if and only if image and nameable networks agree and every compared field says the same, an unset one standing for its default, for specs whose renderings tell their values apart |
| `Silence.MountsAgree` | `drift/live.go:1054-1091` | mounts are silent exactly when each wanted one has a live one of the same target, source, read-only flag and kind, a bind by default, and each live one a wanted one |
| `Silence.PortsAgree` | `drift/live.go:558-594` | so are ports: published and target number, protocol and mode |
| `Silence.LabelsAgree` | `drift/live.go:517-530` | so are labels, but for the two the stack itself writes |
| `Silence.EnvironmentsAgree` | `drift/live.go:454-486` | so are environments, a later setting of a variable counting |
| `Silence.SecretsAgree` | `drift/live.go:1114-1175` | so are secrets, as often as each is mounted at each file |
| `Silence.ConfigsAgree` | `drift/live.go:1118-1175` | so are configs, mounted or left to the runtime |
| `Silence.UlimitsAgree` | `drift/live.go:827-846` | so are ulimits, soft and hard |
| `Silence.GenericsAgree` | `drift/live.go:330-362` | so are generic resources, named or counted |
| `Silence.RenderingsMeet` | `drift/live.go:1054-1091` | each side condition is needed: specs that differ and are rendered alike where one fails |
| `Silence.JoinsMeet` | `drift/live.go:1168-1175` | so are files without a comma and SELinux fields without a colon |
| `Reporting.ReportsExactly` | `drift/live.go:176-219` | a field is reported if and only if it differs, under its own name, with the manifest's value before the live one |
| `Drift.UnionKeys` | `drift/live.go:1215-1229` | the union of two maps' keys in one order, whatever order the maps are walked in |
| `Drift.CompareKeyed` | `drift/live.go:1125-1134` | the differences of two maps in the order of their keys |
| `Drift.Targets` | `drift/live.go:1136-1175` | each reference's targets, sorted and joined |
| `Drift.CompareService` | `drift/live.go:176-219` | the differences (`Reporting.ReportsExactly`) in the order compared, cut at twenty with the rest counted |
| `Drift.Say` | `drift/live.go:65-92` | a declared service is missing, modified, rolled back or not mentioned; a rollback is consulted only where the specs differ |
| `Drift.Live` | `drift/live.go:57-115` | what is said of each declared service in order, then the undeclared ones in order of name |
| `Drift.ReportsInOrder` | `drift/live.go:57-115` | each declared service that is not in place is reported once, in the stack's order: missing, or with at most twenty differences and the rest counted, and as rolled back, with the daemon's reason, exactly when its last update is a rollback that has started, paused or completed; then each undeclared one |
| `Drift.SilentReport` | `drift/live.go:57-115` | the state is none exactly when every declared service runs as declared and nothing undeclared runs |
| `Drift.EverySpecReadsBack` | `drift/live.go:13-39` | every spec has a read-back |
| `Drift.ReadBackIsNormal` | `drift/live.go:13-39` | what the daemon reads back of an untouched spec has the same normal form |
| `Drift.UntouchedIsSilent` | `drift/live.go:13-39` | so the comparison of it is empty |
| `Drift.UntouchedStackIsSilent` | `drift/live.go:57-115` | and the report of an untouched stack is of no drift |
| `Drift.CorrectedIsSilent` | `drift/live.go:299-322` | once the applier's write has landed the next comparison of that service is empty |
| `LogLines.SplitReassembles` | `backend/logs.go:538-558` | splitting at newlines loses no byte |
| `LogLines.PartsHoldNoNewline` | `backend/logs.go:538-558` | and leaves none in a part |
| `LogLines.FeedConcat` | `backend/logs.go:538-574` | feeding chunk by chunk is feeding the whole |
| `LogLines.HoldIsFeeding` | `backend/logs.go:562-574` | holding a piece without a newline is feeding its bytes one at a time |
| `LogLines.FeedingIsSplitting` | `backend/logs.go:538-574` | byte-by-byte assembly with its cap and overrun delivers each line as splitting would: whole up to the cap, else its first cap bytes and one notice |
| `LogLines.ExpectedAfterFlush` | `backend/logs.go:578-585` | flushing delivers a final unterminated line once |
| `LogLines.ExpectedIsLines` | `backend/logs.go:538-585` | what a stream's bytes amount to is its lines, the unterminated last one included, each whole or, beyond 1 MiB, its first 1 MiB |
| `LogLines.HeldStaysCapped` | `backend/logs.go:562-574` | what is held of a line never exceeds the cap |
| `LogLines.LogSink.Write` | `backend/logs.go:538-558` | after any chunks in any interleaving each stream has been offered what its own bytes amount to, and never more than the cap and one chunk was held |
| `LogLines.LogSink.Flush` | `backend/logs.go:578-585` | at the end each stream's trace is that of its own bytes |
| `LogLines.WireShows` | `backend/logs.go:588-599` | the client sees under each stream's name exactly that stream's lines, in order |
| `LogLines.NoticesFollowCuts` | `backend/logs.go:562-574` | every other event is a truncation notice, right behind the line that was cut, one for each |
| `LogFrames.ParseInvertsEncode` | `backend/logs.go:436-470` | reading what was encoded feeds each stream its payloads, then what the rest feeds, and ends as the rest says |
| `LogFrames.WholeStream` | `backend/logs.go:436-470` | whole frames and then the end of the connection |
| `LogFrames.StopsInHeader` | `backend/logs.go:436-443` | a stream that ends inside a header has delivered every frame before it, and ends with the connection's error, or cut short, or closed between two frames |
| `LogFrames.StopsAtForeignHeader` | `backend/logs.go:436-470` | a system error or an unknown header delivers nothing from it or after it |
| `LogFrames.ShortErrorIsWhole` | `backend/logs.go:494-507` | a daemon's message within the cap is reported in full, short of the white space around it |
| `LogFrames.TrimOnlyTrims` | `backend/logs.go:456` | what is trimmed off the message is white space at its ends, and all of it |
| `LogFrames.SpacesAre` | `backend/logs.go:456` | white space is the UTF-8 encoding of one of Unicode's white-space code points |
| `LogFrames.ReadPayload` | `backend/logs.go:494-507` | a payload is fed chunk by chunk and a short one ends the reading |
| `LogFrames.TimedReader.Read` | `backend/logs.go:245-255` | a read ends the backlog exactly when it is the first to stall, and that changes nothing else of what is read |
| `LogFrames.ReadFramedLog` | `backend/logs.go:436-470` | however the connection hands its bytes over, the sink is fed what they mean and the reading ends as they say |
| `LogFrames.ReadRawLog` | `backend/logs.go:479-490` | a terminal's stream is all one stream's |
| `LogFrames.PumpLogs` | `backend/logs.go:181-224` | a log stream from opening to close, reads stalling or not: each stream is offered what its own bytes amount to |
| `LogOutlet.DeliveryIsConserved` | `backend/logs.go:645-677` | what was offered was delivered, or counted in a drop notice, or is still pending, or was ended by cancellation |
| `LogOutlet.DeliveredInOrder` | `backend/logs.go:645-677` | what is delivered is a subsequence of what was offered |
| `LogOutlet.Outlet.CaughtUp` | `backend/logs.go:607` | a stalled read ends the backlog |
| `LogOutlet.Outlet.TryPut` | `backend/logs.go:646-658` | a send that does not wait succeeds unless the channel is full, and sends exactly its event |
| `LogOutlet.Outlet.Send` | `backend/logs.go:645-677` | an offer adds at most a report of the drops so far and exactly one mark for its event; drops are reported before it unless the channel is full; it is dropped only outside the backlog and only because the channel is full, and ended only by cancellation |
| `LogLabels.AsksAreBounded` | `backend/logs.go:384-415` | questions are at least an interval apart, so a stream asks at most once an interval |
| `LogLabels.Labels.Slot` | `backend/logs.go:398-415` | a listing is asked for exactly when the task was never named, asking can help and the interval has passed; an answer stands until another replaces it |
| `EventStream.PickedIsSubsequence` | `api/stream.go:117-136` | what a client gets is a subsequence of what was published since it subscribed |
| `EventStream.EndedAndInOrder` | `api/stream.go:97-105` | once ended no channel ever handed out is open, and at all times each holds at most the buffer, in order |
| `EventStream.Stream.Subscribe` | `api/stream.go:74-88` | a new channel under a new id, closed from the start once the streams have ended |
| `EventStream.Stream.Unsubscribe` | `api/stream.go:107-114` | closes that client's channel once and touches no other |
| `EventStream.Stream.CloseAll` | `api/stream.go:97-105` | closes every open channel once, keeping what is queued |
| `EventStream.Stream.Receive` | `api/stream.go:54-57` | a client takes the oldest event waiting for it |
| `EventStream.Stream.Publish` | `api/stream.go:117-136` | the event is remembered, and queued for exactly the clients with room |
| `EventStream.Stream.Snapshot` | `api/stream.go:148-157` | the newest events published, at most the ring |
| `Reclaim.Sweeper.Sweep` | `reclaim/reclaim.go:92-142` | removes exactly the candidates that were left standing last time and can be removed, and remembers every other |
| `Reclaim.GraceIsTwoSweeps` | `reclaim/reclaim.go:92-142` | a directory goes exactly when it can be removed and has been missed at least twice running |
| `Reclaim.RemovedWasSeenTwice` | `reclaim/reclaim.go:92-142` | both this sweep and the one before found it unowned |
| `Reclaim.GoneBySecondSweep` | `reclaim/reclaim.go:92-142` | one that stays unowned and can be removed is gone by the second sweep that meets it |
| `Paths.CleanIdempotent` | `application/application.go:239-240` | cleaning a cleaned path changes nothing |
| `Paths.PrefixIsSegmentPrefix` | `application/application.go:239-248` | a joined list begins another at a slash exactly when its segments begin the other's |
| `Paths.PermitsPath` | `application/application.go:239-248` | a source is permitted exactly when some allowed path permits it; what that says of the path is `Paths.PermitsFollowsThePath` |
| `Paths.PermitsIsContainment` | `application/application.go:239-248` | for absolute paths that is exactly the allowed path's segments being a prefix of the source's, the segments being those of `Paths.NamesGoDown`, `Paths.DotsGoUp` and `Paths.PathsStart` |
| `Paths.NamesGoDown` | `application/application.go:239-240` | one more name goes one segment down, a dot or a slash more stays, and dots after a name undo it |
| `Paths.DotsGoUp` | `application/application.go:239-240` | dots leave the last name, stay at the root, and are kept where a relative path has nothing left to leave |
| `Paths.PathsStart` | `application/application.go:239-240` | the root and the empty path have no segments, dots beyond the root stay there, and a name alone is itself |
| `Paths.PermitsFollowsThePath` | `application/application.go:239-248` | a permitted source stays permitted below, a source and its detour through a name are permitted alike, what is allowed covers what is below it and not the reverse, and the root allows all |
| `Paths.ContainedExactly` | `config/config.go:458-470` | a relative path passes the escape test exactly when, from whatever directory it is resolved, it leads into that directory |
| `Paths.ChartFileIsReadable` | `compose/compose.go:638-666` | a manifest gets a file exactly when its path has no dollar and cleans to a shipped, relative key below files/ or values/ without dots, and the key is that cleaned path |
| `Paths.ChartFileRefusals` | `compose/compose.go:638-666` | every refusal of a file says what is wrong with its path, in the order of the checks |

## Left out

- The per-application reconcile loop, its claims on installs and its walk over stored
  revisions: the loop is met through the calls the app-set loop makes of it, and what
  it has planned is an input of a pass. `Claims` proves the rule such a walk applies.
- The chart engine: only listing releases, deleting records and writing records.
- Git, HTTP, TLS, the file system and the daemon's own behaviour beyond the answers
  described above.
- Compose loading and conversion, YAML and image-reference parsing, the dollar escape,
  and the check that mapping keys are strings: the model starts from the converted
  stack and the decoded document.
- The registry capability behind a purge, and cluster volumes but for the names and ids
  they answer to.
- Removal.Daemon.RemoveVolume: inspecting a volume and deleting it are one step, so what
  another process does between the two calls is not modelled.
- A registry whose node handles can remove volumes only by name, without checking whose
  they are; and one that fails to list its nodes, which stops a purge as one without nodes does.
- How much of the swarm a purge covered, which only words a warning, and every other log line.
- Real time: settling a volume is a bounded number of attempts, and any read of a log
  stream stalls or does not.
- The rendering of durations and ratios in a drift field: the values are reported as
  numbers.
- Parsing a log line's timestamp and details, and cleaning it of control characters.
- Panics and their recovery.
- The remaining checks of an applications-file entry, each of which concerns that entry
  alone: one predicate stands for them.
- Networks as a deploy creates them, resources removed by id, and the roll-up of drift
  over releases: each is one branch deep.
- Config.Check: the checks of an entry's other fields are a parameter, because none of
  them looks at another entry.
- Prune.Departed: an error is reported as such and not by its text.
