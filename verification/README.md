# The container-app operator, modelled and proved

A verification project in Dafny 4.11 for a Kubernetes operator that turns one *Capp* (a containerised
application) into a Knative Service, NFS volume claims, a certificate, a domain mapping, a DNS record and
event sources, keeps a bounded history of the Capp's revisions, and reports one Ready condition. The model
covers the four reconcile state machines that write to the shared object store: revision history, child
resources with the finalizer, status and readiness, and admission with naming.

`dafny verify dfyconfig.toml` checks everything.

## How the model is built

| module | what it holds |
|---|---|
| `Objects` | Capps, children, configuration, as values |
| `Cluster` | class `Api`: one table of objects for each kind, the Capps, counters of calls and child writes |
| `Sorting`, `Text`, `Naming` | in-place sorting and list pages, string order and decimals, route and record names |
| `Desired` | what each manager wants for a Capp, create-or-update and removal as functions on tables |
| `Managers` | Manage and CleanUp of every manager as methods over `Api` |
| `Convergence` | refinement of the desired set, silence of a second pass, the DNS pre-check |
| `Neighbours` | two Capps side by side: the exact conditions under which they leave each other's objects alone |
| `Delivery`, `Footprint` | what a pass without errors puts in the cluster, field by field, for the Capp as written; what it removes, creates and leaves alone |
| `StatusSync`, `Readiness` | the status sync, what Ready can be relied on for, the watches |
| `Reports`, `Outcomes` | the stored status, field by field, by the cluster; verdicts, cleanup and Ready by the calls and objects met |
| `Controller` | finalizer, the pass over all managers, error classification, Reconcile |
| `Admission` | validating and mutating webhook |
| `Revisions`, `HistoryRuns` | one revision reconcile over class `RevisionStore`, then whole runs of them |
| `Runs` | whole runs of users, Capp reconciles and the rest of the cluster |

**Failing calls.** The n-th call of a reconcile is subject to `fault(n)`, an arbitrary function: it may go
through, meet a conflict, be refused, or take effect although the client sees an error. A theorem about a
method is therefore about every pattern of failures. Each method is proved against functions and relations
on tables (`UpsertAll`, `Wanted`, `AppliedBy`, `CleanedBy` on success, `Reached` and `Receded` on failure),
and the theorems are about those; runs are sequences of states joined by the same relations. Contracts also
say what the calls had to do with the outcome: `Ended` (a method that stops at its first failing call ends
without error exactly when no call met a fault, and otherwise with the answer of that call), `Answers` (the
errors of a pass are the answers of its failed calls), and for a whole reconcile `EndedAs` and `EndedBy`.

**Assumptions about libraries and the server.** Owner references are matched by kind and name, not by UID,
and setting one overwrites the match or appends. Semantic equality is equality of values, with nil and empty
the same. Knative's defaulting of a configuration and Go's text of a duration are arbitrary functions. The
server gives fresh reads, stores specs as written, refuses a create under an existing name, keeps the status
on update, refuses a new finalizer under deletion, and removes an object under deletion with its last
finalizer. `sort.Slice` gives some ordered permutation, and a list comes in any order. A conflict inside an
aggregate is found only by looking at the aggregate's members. In `Runs` UIDs are never reused, users leave
finalizers alone, and the zone is fixed. Runs come in two sorts. In a wild run others create, change and remove
objects of every kind as they like, under any names and labels, but do not make a Capp the owner of anything. In
a tame run they report statuses, remove children and do as they like with secrets, and a Capp name is reused only
when nothing labelled for its predecessor is left (`ReuseBreaksOneName` shows that this is needed).

## Where the code does less than it seems to

Each of these is a lemma, most with the exact condition.

- A revision limit of one, which the resource definition allows, deletes the whole history on an edit and
  then panics (`PassPanicsIff`, `LimitOneLosesHistory`); numbering starts again.
- Revisions created within one second tie; the latest can be deleted (`LatestSettledIff`, `TieDeletesLatest`).
- A history longer than one page of the list call, which a limit above the page size leads to, can leave every
  create failing (`LongHistoryReached`, `LongHistoryStuckIff`).
- The comment on GenerateRecordName promises the zone stripped; a hostname that ends in the zone off a label
  boundary loses a character, and the bare zone as hostname panics (`RecordNameCompletesIff`, `RecordNamePanicsIff`).
- Capp `a` with source `b-c` and Capp `a-b` with source `c` undo each other's work for ever
  (`SourceNameCollision`, `CollidingCappsNeverSettle`). A Capp with nothing to do has nothing to do after a pass
  over another one exactly when that one leaves its objects alone (`StaysQuietIff` for each kind,
  `NeighboursSettleIff` for whole passes); for sources, when none of its objects is one that the other wants or
  bears the other's label (`SourcesLeftAloneIff`).
- NFS claims bear the bare name of the volume: two Capps of one namespace with different volumes of one name rewrite
  each other's claim on every pass (`VolumesLeftAloneIff`). Two Capps of one namespace with one route name - on the
  condition of `SameResourceNameIff` - do so with the domain mapping, and with the record if they name it differently,
  which for a zone that ends in a dot they do not (`RoutesLeftAloneIff`, `RecordsShared`).
- NFS volumes that share a name pass admission and then every pass writes again (`DuplicateVolumesAdmitted`,
  `SecondPassSilentIff`).
- A volume dropped while the Capp keeps another leaves its claim behind, and so do the objects of a former route name
  (`OnlyNamedTouched`); only a Capp without any volume, or without a hostname, cleans them up (`UnwantedGone`).
- The DNS pre-check accepts an owner reference with an old UID (`CheapCheckDisagreesIff`, `StaleOwnerKept`).
- The Ready cascade does not notice missing route objects (`MissingRoutesLookReady`); that Ready still means
  they exist comes from the managers (`ReadyMeansInService`).
- Of updates that touch the status alone the Service watch sees new revision names only
  (`ServiceReadinessUnwatched`), and the condition test of the other watches cannot tell a missing condition from
  an empty one (`RouteWatchFiresIff`).
- A status conflict hides the managers' errors of the same pass (`VerdictIff`).
- Under deletion a hostname may change (`DeletedHostnameMayChange`).
- The TLS secret of a mapping the Capp does not own can outlive its cleanup (`TLSSecretLeaksIff`).

## Model

| member | source | states |
|---|---|---|
| HistoryRuns.RunKeepsInvariant | internal/kinds/capprevision/actionmanagers/update.go:72-99 | In every state of every run of edits, limit changes (2 to 100) and reconciles failing anywhere: numbers and creation times rise together, at most a page of revisions is kept, the highest number ever issued is still stored, the newest L-1 revisions have no gap (L the lowest limit so far), revisions with consecutive numbers differ |
| HistoryRuns.NumbersNeverReissued | internal/kinds/capprevision/actionmanagers/update.go:88-98 | A revision added later in a run has a higher number, so no number is successfully created twice, even when the reply to a create is lost |
| HistoryRuns.NewestNeverDeleted | internal/kinds/capprevision/actionmanagers/update.go:90-98 | No step of a run deletes the newest revision |
| HistoryRuns.CreatingPassClosesGaps | internal/kinds/capprevision/actionmanagers/update.go:87-98 | A completed creating pass with a limit that never rose leaves at most the limit, without any gap |
| HistoryRuns.CreatingPassKeepsNewest | internal/kinds/capprevision/actionmanagers/update.go:87-98 | What a creating pass keeps is the newest revisions up to the limit, the new one included |
| HistoryRuns.SuccessfulPassRecords | internal/kinds/capprevision/actionmanagers/update.go:82-98 | After a pass without error the newest revision holds the Capp's spec, its labels and its annotations but for last-updated-by |
| HistoryRuns.RevisionAddedIff | internal/kinds/capprevision/actionmanagers/update.go:42-99 | A reconcile without a fault adds a revision exactly when there is none, or the spec, the labels or an annotation other than last-updated-by differ from what the newest holds |
| HistoryRuns.AddedIsCapp | internal/kinds/capprevision/adapters/capprevision_adapter.go:50-73 | A revision any pass adds, failing or not, holds spec, annotations and labels of the Capp of that moment, and has the next number, its name and its time |
| HistoryRuns.RecordedStaysPut | internal/kinds/capprevision/actionmanagers/update.go:82-85 | Once recorded, a Capp that is only re-stamped leaves the history alone through any number of passes, failing or not |
| HistoryRuns.CleanRunHasNoGaps | internal/kinds/capprevision/actionmanagers/update.go:87-98 | Over any run of edits, limit changes and reconciles in which no call met a fault the history never has a gap and no two neighbours are equal, whatever the limit does |
| HistoryRuns.SyncIsHistoryStep | internal/kinds/capprevision/actionmanagers/update.go:72-99 | For an orderly history of at most a page and a limit of at least two, the imperative reconcile refines the abstract history step, does not panic, and without a fault ends without error |
| HistoryRuns.FaultlessPassSucceeds | internal/kinds/capprevision/actionmanagers/update.go:72-99 | A reconcile in which no call met a fault is a pass without error |
| HistoryRuns.PageIsReversed | internal/kinds/capprevision/actionmanagers/update.go:35-39 | With creation times that differ, the sort has one possible result: newest first |
| HistoryRuns.DeletedIsTrimmed | internal/kinds/capprevision/actionmanagers/update.go:92-96 | Deleting by name, newest of the tail first, cuts a contiguous block out of the history just below the kept revisions |
| HistoryRuns.PassPanicsIff | internal/kinds/capprevision/actionmanagers/update.go:90-98 | A panicking outcome exists exactly when the limit is below two and the Capp differs from the latest revision |
| HistoryRuns.LimitOneLosesHistory | api/v1alpha1/cappconfig_types.go:37-40 | With a limit of one, which the resource definition allows, a reconcile after an edit in which no call fails panics and leaves no revision, and numbering starts over |
| HistoryRuns.LatestSettledIff | internal/kinds/capprevision/actionmanagers/update.go:35-39 | The sort settles which revision is the latest exactly when no other has its creation time |
| HistoryRuns.TieDeletesLatest | internal/kinds/capprevision/actionmanagers/update.go:82-98 | Two revisions of one second: the latest can be deleted and its number issued again |
| HistoryRuns.LongHistoryStuckIff | internal/kinds/capprevision/adapters/capprevision_adapter.go:38-46 | For a non-empty history in order and without gaps, some page leads to a create under the name of an existing revision exactly when the history is longer than a page |
| HistoryRuns.LongHistoryReached | internal/kinds/capprevision/actionmanagers/update.go:87-89 | With a limit above the page size, edits and reconciles without any fault do grow the history beyond a page |
| Revisions.RevisionNameInjective | internal/kinds/capprevision/adapters/capprevision_adapter.go:52-55 | The name made of Capp name and five-digit number determines both |
| Revisions.SameTemplateIff | internal/kinds/capprevision/actionmanagers/update.go:42-68 | The comparison is equality of spec, labels and all annotations but last-updated-by |
| Revisions.IsEqualIff | internal/kinds/capprevision/actionmanagers/update.go:42-68 | A revision is no different from the Capp exactly when it holds the Capp's spec, labels and annotations but for last-updated-by |
| Revisions.RestampIsEqual | internal/webhook/rcs/v1alpha1/mutator.go:73-79 | Passing through the mutating webhook for another user makes no difference to the comparison |
| Revisions.SplitRevisionsAtIndex | internal/kinds/capprevision/actionmanagers/update.go:24-32 | The two parts make up the list, and the first has the index clipped to the list as its length |
| Revisions.RevisionStore.CreateCappRevision | internal/kinds/capprevision/adapters/capprevision_adapter.go:50-73 | Answer and effect, settled by the fault of the call and the state: an existing name is refused, a lost reply hides a creation; what is created holds the owner's spec, annotations and labels under name and number |
| Revisions.RevisionStore.DeleteCappRevision | internal/kinds/capprevision/adapters/capprevision_adapter.go:76-78 | Answer and effect, settled by the fault of the call and the state: a missing revision is not found, a lost reply hides a removal |
| Revisions.RevisionStore.List | internal/kinds/capprevision/adapters/capprevision_adapter.go:30-47 | Without a fault all revisions in any order when they fit a page, otherwise some hundred of them |
| Revisions.DeleteRevisions | internal/kinds/capprevision/actionmanagers/update.go:92-96 | The delete loop: without error all of the tail is gone and no call met a fault; otherwise a prefix is gone and the next revision was missing or its delete met the fault |
| Revisions.CreateNext | internal/kinds/capprevision/actionmanagers/update.go:87-98 | Creates the revision of a given number: the history grows by it or stays as it was, success means that it grew, and without a fault only a taken name is an error |
| Revisions.SortByCreationTime | internal/kinds/capprevision/actionmanagers/update.go:35-39 | An ordered permutation, newest first |
| Revisions.UpdateSorted | internal/kinds/capprevision/actionmanagers/update.go:74-99 | The update of a sorted page: the outcome for every configuration read and every pattern of failures |
| Revisions.UpdateWithin | internal/kinds/capprevision/actionmanagers/update.go:82-98 | The same once the limit is known: nothing for an equal Capp, a create below the limit, otherwise trim and create |
| Revisions.TrimAndCreate | internal/kinds/capprevision/actionmanagers/update.go:90-98 | Trim then create, with the panic on an empty kept part; without a fault only a missing revision or a taken name is an error |
| Revisions.HandleCappUpdate | internal/kinds/capprevision/actionmanagers/update.go:72-99 | The outcome for every limit, every page and every pattern of failures, and for none; a Capp whose spec, labels and annotations the newest revision holds writes nothing |
| Revisions.SyncCappRevision | internal/kinds/capprevision/controllers/controller.go:83-95 | First revision, update, or, only on account of a fault, nothing; an error under a fault is the answer of the last call |
| Revisions.Reconcile | internal/kinds/capprevision/controllers/controller.go:60-80 | Requeues quietly exactly for a conflict or an existing revision met by the sync; a fault in reading the Capp is a failure; a Capp under deletion is not touched |
| Naming.ResourceNameIdempotent | internal/kinds/capp/resourcemanagers/helpers.go:82-89 | Naming a resource after a resource name changes nothing, for every zone |
| Naming.ResourceNameEndsInZone | internal/kinds/capp/resourcemanagers/helpers.go:82-89 | The hostname itself when it ends in the zone, otherwise completed with it |
| Naming.RecordNameCuts | internal/kinds/capp/resourcemanagers/helpers.go:91-100 | The record is the hostname less the zone and one more character, or the hostname itself |
| Naming.RecordNameCompletesIff | internal/kinds/capp/resourcemanagers/helpers.go:91-100 | Record name, dot and zone make up the resource name exactly when the hostname does not end in the zone or ends in it at a label boundary |
| Naming.RecordNamePanicsIff | internal/kinds/capp/resourcemanagers/helpers.go:93-99 | The slice is out of range exactly for a hostname that is the zone itself |
| Naming.RecordNameLosesCharacter | internal/kinds/capp/resourcemanagers/helpers.go:93-99 | A hostname that ends in the zone off a label boundary loses a character |
| Naming.SameResourceNameIff | internal/kinds/capp/resourcemanagers/helpers.go:82-89 | Two hostnames share their route objects exactly when equal or one is the other completed with the zone |
| Naming.SharedNameSharesRecord | internal/kinds/capp/resourcemanagers/helpers.go:82-100 | For a zone that ends in a dot, hostnames that share their route objects are recorded under one name |
| Naming.TLSSecretNameInjective | internal/kinds/capp/resourcemanagers/helpers.go:102-104 | Different route names have different TLS secrets |
| Managers.CreateOrUpdate | internal/kinds/capp/resourcemanagers/helpers.go:26-58 | One Get, then create or laid-over update: the table is the upserted one or the old one, a success writes exactly when the child was not settled; it ends without error exactly when none of its calls met a fault, otherwise with the answer of the first call that did |
| Managers.CreateOrUpdateRecord | internal/kinds/capp/resourcemanagers/dnsrecord.go:97-145 | The record manager: its result, its silence, its panic without a call, and otherwise it ends without error exactly when none of its calls met a fault, otherwise with the answer of the first call that did |
| Managers.ApplyRecord | internal/kinds/capp/resourcemanagers/dnsrecord.go:101-132 | Get, the cheap check, and the write, with whether the record was laid over; it ends without error exactly when none of its calls met a fault, otherwise with the answer of the first call that did |
| Managers.CreateOrUpdateVolumes | internal/kinds/capp/resourcemanagers/nfspvc.go:98-126 | The volume loop: the fold of the upsert over the volumes, a prefix of it when a call fails; it ends without error exactly when none of its calls met a fault, otherwise with the answer of the first call that did |
| Managers.PrepareVolumes | internal/kinds/capp/resourcemanagers/nfspvc.go:33-58 | One NfsPvc for each volume, in order |
| Managers.ApplyNext | internal/kinds/capp/resourcemanagers/nfspvc.go:101-124 | One more child: the fold grows by it, on a failure perhaps not; all children so far were settled exactly when all before it were and it took no write; it ends without error exactly when none of its calls met a fault, otherwise with the answer of the first call that did |
| Managers.ApplySource | internal/kinds/capp/resourcemanagers/kafkasource.go:45-52 | One entry of the loop over the sources: applied when it is of this kind, passed over otherwise; it ends without error exactly when none of its calls met a fault, otherwise with the answer of the first call that did |
| Managers.CreateOrUpdateSources | internal/kinds/capp/resourcemanagers/kafkasource.go:44-54 | The loop over the sources of one kind: the fold of the upsert over them, a prefix of it when a call fails; it ends without error exactly when none of its calls met a fault, otherwise with the answer of the first call that did |
| Managers.DeleteOwnedResources | internal/kinds/capp/resourcemanagers/helpers.go:60-78 | Deletes the listed objects, under deletion of the Capp only those it does not own; a failure leaves part of them; it ends without error exactly when none of its calls met a fault, otherwise with the answer of the first call that did |
| Managers.CleanUpOrphans | internal/kinds/capp/resourcemanagers/kafkasource.go:146-166 | Deletes exactly the labelled sources that no entry names; it ends without error exactly when none of its calls met a fault, otherwise with the answer of the first call that did |
| Managers.DeleteOrphans | internal/kinds/capp/resourcemanagers/kafkasource.go:157-164 | The loop of that cleanup; it ends without error exactly when none of its calls met a fault, otherwise with the answer of the first call that did |
| Managers.DeleteIfPresent | internal/kinds/capp/resourcemanagers/helpers.go:72-75 | Deletes one object, a missing one is fine; it ends without error exactly when none of its calls met a fault, otherwise with the answer of the first call that did |
| Managers.DesiredNames | internal/kinds/capp/resourcemanagers/pingsource.go:120-126 | The set of names the entries of one kind stand for |
| Managers.CleanUpService | internal/kinds/capp/resourcemanagers/ksvc.go:105-116 | Found by name; gone afterwards unless left to garbage collection; a missing Service is fine; it ends without error exactly when none of its calls met a fault, otherwise with the answer of the first call that did |
| Managers.DeleteTLSSecret | internal/kinds/capp/resourcemanagers/domainmapping.go:100-108 | Deletes the TLS secret of one mapping; a missing one is fine; it ends without error exactly when none of its calls met a fault, otherwise with the answer of the first call that did |
| Managers.CleanUpMapping | internal/kinds/capp/resourcemanagers/domainmapping.go:83-109 | The mapping first, then its secret; whatever fails, nothing else changes; it ends without error exactly when none of its calls met a fault, otherwise with the answer of the first call that did |
| Managers.CleanUpDomainMappings | internal/kinds/capp/resourcemanagers/domainmapping.go:77-112 | Afterwards the mappings not left to garbage collection are gone, and the TLS secret of every listed mapping; a failure leaves part of them; it ends without error exactly when none of its calls met a fault, otherwise with the answer of the first call that did |
| Managers.DeleteMappings | internal/kinds/capp/resourcemanagers/domainmapping.go:83-111 | The loop of that cleanup; it ends without error exactly when none of its calls met a fault, otherwise with the answer of the first call that did |
| Managers.CleanUpListed | internal/kinds/capp/resourcemanagers/nfspvc.go:70-80 | The cleanups that list by label: what is not left to garbage collection is gone, or part of it when a call fails; it ends without error exactly when none of its calls met a fault, otherwise with the answer of the first call that did |
| Managers.CleanUp | internal/kinds/capp/resourcemanagers/helpers.go:60-78 | CleanUp of each manager: complete when it succeeds, silent exactly when there is nothing to delete, partial when it fails; it ends without error exactly when none of its calls met a fault, otherwise with the answer of the first call that did |
| Managers.ManageSources | internal/kinds/capp/resourcemanagers/kafkasource.go:44-58 | Every desired source applied, then the orphans deleted; it ends without error exactly when none of its calls met a fault, otherwise with the answer of the first call that did |
| Managers.ManageSingle | internal/kinds/capp/resourcemanagers/certificate.go:94-125 | The managers of one object; it ends without error exactly when none of its calls met a fault, otherwise with the answer of the first call that did |
| Managers.PrepareSingle | internal/kinds/capp/resourcemanagers/certificate.go:103-105 | The one child of a manager of one object |
| Managers.PrepareDomainMapping | internal/kinds/capp/resourcemanagers/domainmapping.go:37-74 | Refers to the TLS secret exactly when TLS is on and the secret is there; fails exactly when the read met a fault |
| Managers.PrepareService | internal/kinds/capp/resourcemanagers/ksvc.go:52-102 | The loop that appends the volumes, and the annotations merged over it |
| Managers.Manage | internal/kinds/capp/resourcemanagers/kafkasource.go:44-58 | For every kind: the wanted table on success, zero writes exactly when the kind was quiet, a reachable intermediate table on failure; it panics exactly for a record named after the bare zone, and otherwise succeeds exactly when none of its calls met a fault |
| Convergence.SetOwnerIdempotent | internal/kinds/capp/resourcemanagers/helpers.go:19-24 | Setting the owner again changes nothing |
| Convergence.DoomedIff | internal/kinds/capp/resourcemanagers/helpers.go:60-78 | A cleanup deletes what it finds - the Service by name, the rest by its labels - except, once the Capp is under deletion, what a Capp of this name owns |
| Convergence.TLSSecretsIff | internal/kinds/capp/resourcemanagers/domainmapping.go:77-112 | The secrets it deletes are those named after the mappings found, owned or not |
| Convergence.UpsertAllFrame | internal/kinds/capp/resourcemanagers/nfspvc.go:101-123 | The fold adds the children's identities and touches nothing else |
| Convergence.UpsertAllKeeps | internal/kinds/capp/resourcemanagers/kafkasource.go:84-93 | Updates never write labels, annotations or status, and every child ends up owned by the Capp |
| Convergence.UpsertAllDistinct | internal/kinds/capp/resourcemanagers/nfspvc.go:101-123 | With distinct identities each child is laid over what was there before the pass |
| Convergence.LastDecides | internal/kinds/capp/resourcemanagers/nfspvc.go:101-123 | Under one identity the last child decides, and an earlier one is settled exactly when the two agree |
| Convergence.SettledIff | internal/kinds/capp/resourcemanagers/nfspvc.go:98-126 | After applying all children every one is settled exactly when children of one identity agree |
| Convergence.SourceIdsDistinct | internal/webhook/rcs/v1alpha1/validator.go:197-203 | Distinct source names, as admission demands, give distinct identities |
| Convergence.SourcesRefine | internal/kinds/capp/resourcemanagers/kafkasource.go:44-94 | A successful Manage sets the labelled set to the desired set with the desired specs (the consumer group kept) and frames the rest - exactly when no desired name is held by an object with another label |
| Convergence.SourceNameCollision | internal/kinds/capp/resourcemanagers/kafkasource.go:97-113 | Capp a with source b-c and Capp a-b with source c ask for one object |
| Neighbours.StaysQuietIff | internal/kinds/capp/resourcemanagers/helpers.go:48-58 | For each kind: a Capp with nothing to do has nothing to do after a successful pass over any other Capp exactly when that one removes none of its objects, and wants of those they share nothing that the first would change |
| Neighbours.NeighboursSettleIff | internal/kinds/capp/controllers/controller.go:405-411 | The same for a whole error-free pass over all managers, TLS secrets included |
| Neighbours.SourcesLeftAloneIff | internal/kinds/capp/resourcemanagers/kafkasource.go:44-166 | For PingSources and KafkaSources that is so exactly when no object of the first is one that the second wants or bears the second's label |
| Neighbours.VolumesLeftAloneIff | internal/kinds/capp/resourcemanagers/nfspvc.go:33-58 | For NfsPvcs of one namespace exactly when the second has no different volume of the same name (the last of a name decides) - or, having none, finds its label on no claim of the first |
| Neighbours.RoutesLeftAloneIff | internal/kinds/capp/resourcemanagers/domainmapping.go:37-75 | Two Capps of one namespace with a hostname each disturb each other's mapping exactly when they share the route name, their record exactly when they also name it differently, and never the certificate |
| Neighbours.RecordsShared | internal/kinds/capp/resourcemanagers/dnsrecord.go:37-67 | For a zone that ends in a dot Capps with one route name want one record |
| Neighbours.ServicesLeftAlone | internal/kinds/capp/resourcemanagers/ksvc.go:105-175 | The Knative Services of two Capps never disturb each other |
| Neighbours.OtherOwnerKept | internal/kinds/capp/resourcemanagers/helpers.go:19-24 | Setting one owner reference leaves the reference of every other owner as it is |
| Convergence.CollidingCappsNeverSettle | internal/kinds/capp/resourcemanagers/kafkasource.go:72-94 | Whenever one of two such Capps has reconciled, the other has a write to make |
| Convergence.RouteObjectsFit | internal/kinds/capp/resourcemanagers/certificate.go:35-72 | Certificate, DomainMapping and record have one name, and the secret filled is the secret referred to and deleted |
| Convergence.DefaultGroupsDedicated | internal/kinds/capp/resourcemanagers/kafkasource.go:130 | Sources without a consumer group get one each |
| Convergence.VolumesAgreeIff | internal/kinds/capp/resourcemanagers/nfspvc.go:33-58 | The generated NfsPvcs agree exactly when volumes of one name are one volume |
| Convergence.QuietAfterIff | internal/kinds/capp/resourcemanagers/helpers.go:48-58 | After a successful Manage a required kind is quiet exactly when its children agree |
| Convergence.SecondPassSilentIff | internal/kinds/capp/controllers/controller.go:405-411 | A second pass writes no child exactly when volumes and sources of one name agree |
| Convergence.AdmittedSecondPassSilentIff | internal/kinds/capp/controllers/controller.go:405-411 | For admitted source names only the volumes matter |
| Convergence.CheapCheckDisagreesIff | internal/kinds/capp/resourcemanagers/dnsrecord.go:109-145 | The pre-check and the full update disagree exactly on a record that is as desired but whose first reference to a Capp of this name has another UID |
| Convergence.UidForIff | internal/kinds/capp/resourcemanagers/helpers.go:19-24 | Setting the owner changes nothing exactly when the first reference of its kind and name has its UID |
| Convergence.StaleOwnerKept | internal/kinds/capp/resourcemanagers/dnsrecord.go:140-144 | A record that still names a deleted Capp of the same name passes the pre-check |
| Convergence.CheapCheckSound | internal/kinds/capp/resourcemanagers/dnsrecord.go:117-145 | Silence of the pre-check means provider fields and owner are in place; the update silences it and leaves other fields alone |
| Desired.SetOwner | internal/kinds/capp/resourcemanagers/helpers.go:19-24 | The reference is in the list afterwards and nobody else's is lost |
| Delivery.ChildDelivered | internal/kinds/capp/resourcemanagers/helpers.go:48-58 | After a pass without errors every wanted child of every kind is there, owned, and as wanted up to the preserved fields |
| Delivery.ServiceDelivered | internal/kinds/capp/resourcemanagers/ksvc.go:52-102 | An enabled Capp has a Service with its defaulted containers, the defaulted volumes and then one for each NFS volume in order, just its labels, and its time-out |
| Delivery.ServiceScaled | internal/kinds/capp/resourcemanagers/ksvc.go:52-227 | Its annotations hold the metric asked for, the class and the default target of that metric, bounds that read back and the delay; under every other key just the Capp's own that are not the operator's or kubectl's |
| Delivery.VolumeDelivered | internal/kinds/capp/resourcemanagers/nfspvc.go:33-58 | Every volume has an NfsPvc with its server, path and capacity |
| Delivery.PingDelivered | internal/kinds/capp/resourcemanagers/pingsource.go:93-118 | Every ping entry has a PingSource with its schedule and data, sent to the Capp's own Service |
| Delivery.KafkaDelivered | internal/kinds/capp/resourcemanagers/kafkasource.go:97-144 | Every Kafka entry has a KafkaSource with its topics, brokers, secret and consumers, sent to the Capp's own Service |
| Delivery.KafkaGroup | internal/kinds/capp/resourcemanagers/kafkasource.go:84-130 | It consumes as the group it had, or when new as the entry's group or its own name |
| Delivery.RouteDelivered | internal/kinds/capp/resourcemanagers/domainmapping.go:37-74 | With a hostname there are the mapping to the Capp's Service and the record in the zone, and with TLS the certificate, all under one name and one secret, the certificate's common name cut at 64 characters |
| Footprint.UnwantedGone | internal/kinds/capp/resourcemanagers/ksvc.go:105-139 | Of every kind a live Capp does not ask for (disabled, no hostname, TLS off, no volumes, no such entries) all that is found to be its is gone after a pass, owned or not, and everything else is as it was |
| Footprint.SecretsGone | internal/kinds/capp/resourcemanagers/domainmapping.go:77-127 | Secrets are never written; without a hostname those named after the mappings found go, and no others |
| Footprint.OnlyNamedTouched | internal/kinds/capp/resourcemanagers/nfspvc.go:98-126 | Of a kind the Capp asks for, a pass touches only objects the Capp names and, of sources, those it finds; what it named before stays |
| Footprint.CreatedAs | internal/kinds/capp/resourcemanagers/helpers.go:26-46 | What a pass creates has the name and labels of the Capp's kind of child, the Capp as owner, no status, and annotations only on the Service |
| Controller.FinalizeCapp | internal/kinds/capp/controllers/finalizer.go:32-39 | All managers clean up in reverse order, or the loop stops inside one with the later ones done and the earlier ones, the TLS secrets included, untouched; it ends without error exactly when none of its calls met a fault, otherwise with the answer of the first call that did |
| Controller.HandleResourceDeletion | internal/kinds/capp/controllers/finalizer.go:15-30 | The finalizer is taken away only after every cleanup succeeded in the same pass; it ends without error exactly when none of its calls met a fault, otherwise with the answer of the first call that did |
| Controller.EnsureFinalizer | internal/kinds/capp/controllers/finalizer.go:41-47 | Success means it is stored; it fails exactly on a fault or for a Capp under deletion without it |
| Controller.RunManager | internal/kinds/capp/controllers/controller.go:407-410 | One manager in the middle of a pass: its outcome in terms of the tables before the pass, and its error as the answer of its failed call |
| Controller.RunManagers | internal/kinds/capp/controllers/controller.go:407-410 | The loop over the managers: how far it got, the errors as the answers of the failed calls, and whether all were quiet, by the writes |
| Controller.ManageAll | internal/kinds/capp/controllers/controller.go:405-411 | Every manager runs whatever the earlier ones returned, the errors are the answers of the failed calls one by one, and each manager without one establishes its result; zero child writes exactly when all were quiet |
| Controller.SyncApplication | internal/kinds/capp/controllers/controller.go:405-418 | Managers, then status; the trace tells which calls made which error; the status error takes the place of the managers' errors |
| Controller.HasConflictError | internal/kinds/capp/controllers/controller.go:423-441 | A conflict, or an aggregate of conflicts only |
| Controller.Sync | internal/kinds/capp/controllers/controller.go:389-400 | The part of a reconcile after deletion has been ruled out: without the finalizer nothing runs beyond the call that was to store it, and that only on a fault or under deletion; the verdict follows from the errors the calls made |
| Controller.SyncAndJudge | internal/kinds/capp/controllers/controller.go:393-400 | One sync and the verdict on it |
| Controller.Judge | internal/kinds/capp/controllers/controller.go:393-400 | The verdict from the error SyncApplication returned is the verdict on its trace |
| Controller.Proceed | internal/kinds/capp/controllers/controller.go:380-400 | The part of Reconcile after the two reads; for a live Capp only the call that stores the finalizer can stop it |
| Controller.SyncToEnd | internal/kinds/capp/controllers/controller.go:389-400 | The part of it after the deletion, with the same account of how it ended |
| Controller.SyncEnds | internal/kinds/capp/controllers/controller.go:389-400 | With a trace a sync ends as synced, without one it stopped at the finalizer, and the calls tell so |
| Controller.Reconcile | internal/kinds/capp/controllers/controller.go:349-401 | How it ended, by the calls made and the state: not found (a read without a fault), stopped on account of a fault (for a live Capp in the reads or the write of the finalizer only), of no configuration or too late for the finalizer, finalized, or synced; a sync requeues without error exactly when its status call met a conflict, or its managers' failed calls met nothing else; done means every manager succeeded and the status matches what was seen |
| Controller.FaultlessIsDone | internal/kinds/capp/controllers/controller.go:349-401 | A reconcile that meets no fault is done, unless there is no configuration, the Capp is under deletion without the finalizer, or naming the record panics |
| Outcomes.VerdictIff | internal/kinds/capp/controllers/controller.go:389-441 | A sync is done exactly when no call met a fault, and retried quietly exactly when the status sync ended at a conflict or met no fault while the managers met conflicts and nothing worse |
| Outcomes.PanicsIff | internal/kinds/capp/resourcemanagers/helpers.go:91-100 | For a zone that ends in a dot only the bare zone as hostname panics |
| Outcomes.PanicStopsPass | internal/kinds/capp/controllers/controller.go:368-411 | The panic comes after Service, volumes, certificate and mapping; record, sources and status are untouched |
| Outcomes.CleanedExactly | internal/kinds/capp/controllers/finalizer.go:32-39 | A complete cleanup removes exactly what is found and not left to garbage collection, and the secrets of the mappings found |
| Outcomes.FinalizedLosesOne | internal/kinds/capp/controllers/finalizer.go:15-30 | A finalized Capp loses the operator's finalizer only, and is gone if that was its last |
| Outcomes.DoneChangesStatus | internal/kinds/capp/controllers/controller.go:380-418 | A reconcile that is done adds the finalizer and a status to this Capp and changes nothing else of any Capp |
| Controller.DoneIsPassed | internal/kinds/capp/controllers/controller.go:393-400 | Done, for a live Capp, is a pass in which every manager succeeded and a status that matches what was seen |
| Controller.EndingIsOutcome | internal/kinds/capp/controllers/controller.go:349-401 | However it ends, a reconcile does no more than finalize a Capp under deletion, or attach the finalizer to a live one and then sync it |
| StatusSync.ReadyIff | internal/kinds/capp/status/capp.go:110-156 | Exactly when the cascade says Ready |
| StatusSync.ReadyReason | internal/kinds/capp/status/capp.go:110-156 | The reason names the first failing check of the cascade, in its order |
| StatusSync.SyncStatus | internal/kinds/capp/status/capp.go:34-100 | Writes the status of this Capp only, from what is observed, and only when more than time stamps changed; for the states the resource definition admits the status tells the Capp's state, as of now just when it told another before; it ends without error exactly when none of its calls met a fault, otherwise with the answer of the first call that did |
| StatusSync.StateTold | internal/kinds/capp/status/capp.go:25-31 | The stored state is the Capp's, and the time of its change moves just when it does |
| Reports.SyncTells | internal/kinds/capp/status/capp.go:34-100 | After a sync the status tells the state, the Service's status and revisions, each route object, each volume and each source found, in terms of the tables |
| Reports.DoneTells | internal/kinds/capp/controllers/controller.go:389-418 | So it does after a reconcile that ended done, with the time of the last change of state |
| Reports.SeenRevisionsTold | internal/kinds/capp/status/serving.go:24-60 | The revisions told are those of the Capp's namespace and configuration, oldest first and by name within a second, all of them unless the page is full |
| Reports.SeenEventsTold | internal/kinds/capp/status/eventing.go:18-76 | One entry for each source found, in the order of names, with its first Ready condition or the word that nothing is known |
| Reports.ReadyTells | internal/kinds/capp/status/capp.go:108-250 | The condition is Ready, true or false, and its message is about the first thing that holds it back |
| StatusSync.SetConditionAt | internal/kinds/capp/status/capp.go:103-106 | The condition replaces the first of its type or is appended, its time moving just when its status does, and the others stay |
| StatusSync.StoreIfChanged | internal/kinds/capp/status/capp.go:86-99 | Stores the next status unless only time stamps differ; a failure leaves the prior or the next |
| StatusSync.Look | internal/kinds/capp/status/capp.go:35-80 | The stored status and what is to be seen |
| StatusSync.ObserveChildren | internal/kinds/capp/status/capp.go:47-80 | The observation once the Service is seen; fails exactly when a call met a fault |
| StatusSync.Observe | internal/kinds/capp/status/capp.go:42-80 | What one sync reads, for any listing order; fails exactly when a call met a fault |
| StatusSync.BuildKnative | internal/kinds/capp/status/serving.go:64-87 | The Service's status and its revisions; a missing Service is an empty status; fails exactly when a call met a fault |
| StatusSync.BuildRevisions | internal/kinds/capp/status/serving.go:23-61 | A page of the Capp's revisions, all that fit, in the order of creation and name; fails exactly when the list met a fault |
| StatusSync.ReportRevisions | internal/kinds/capp/status/serving.go:44-60 | Sorts the page in place and reports it in that order |
| StatusSync.BuildRouteObject | internal/kinds/capp/status/route.go:48-62 | A missing route object is an empty status; fails exactly when a call met a fault |
| StatusSync.BuildRoute | internal/kinds/capp/status/route.go:20-44 | The three lookups under one name; fails exactly when a call met a fault |
| StatusSync.BuildVolumes | internal/kinds/capp/status/volumes.go:15-43 | One entry for each volume in order, empty for a missing NfsPvc; fails exactly when a call met a fault |
| StatusSync.BuildEvents | internal/kinds/capp/status/eventing.go:19-46 | One entry for each labelled source, ordered by name; fails exactly when a call met a fault |
| StatusSync.ReportEvents | internal/kinds/capp/status/eventing.go:30-44 | The two loops and the sort by name: an ordered permutation of the reports |
| StatusSync.EventsCanonical | internal/kinds/capp/status/eventing.go:30-45 | With distinct names the report is the same for every listing order, time stamps aside |
| StatusSync.RevisionsCanonical | internal/kinds/capp/status/serving.go:44-58 | The order on revisions is total, so the report is the same for every listing order |
| StatusSync.ObservationsAgree | internal/kinds/capp/status/capp.go:42-80 | Two syncs of one cluster observe the same, time stamps aside |
| StatusSync.SetConditionAgain | internal/kinds/capp/status/capp.go:103-106 | Setting a condition a second time changes nothing |
| StatusSync.SecondSyncSilent | internal/kinds/capp/status/capp.go:82-99 | A second sync of an unchanged cluster writes nothing, whether or not the first one did, for the states the resource definition admits |
| StatusSync.SuppressedOnlyForTimes | internal/kinds/capp/status/capp.go:248-267 | A write is held back exactly between statuses that agree but for four kinds of time stamps |
| Readiness.StoredReadyIff | internal/kinds/capp/status/capp.go:84-99 | The stored status says Ready exactly when the cascade does, also when the write was held back |
| Readiness.ReadyMeansInService | internal/kinds/capp/controllers/controller.go:405-418 | Ready after a sync without manager errors: Service, DomainMapping, record, Certificate, NfsPvcs and sources exist and are ready or bound |
| Readiness.DoneAndReadyIsInService | internal/kinds/capp/controllers/controller.go:349-401 | The same, from a reconcile that ended done and left the stored status Ready |
| Outcomes.ReadyIffInService | internal/kinds/capp/controllers/controller.go:349-401 | A reconcile that ended done leaves the Capp Ready exactly when Service, routes, volumes and sources are there and ready or bound |
| Readiness.SaysReadyIffSeen | internal/kinds/capp/status/capp.go:108-160 | Without manager errors the stored condition is true exactly when all that was seen is in order |
| Readiness.MissingRoutesLookReady | internal/kinds/capp/status/capp.go:186-202 | The cascade alone stays Ready when all route objects are gone |
| Readiness.AdmittedSourcesDistinct | internal/webhook/rcs/v1alpha1/validator.go:197-203 | After a pass over an admitted Capp no PingSource shares its name with a KafkaSource |
| Readiness.QuietPassChangesNothing | internal/kinds/capp/resourcemanagers/helpers.go:48-58 | A pass with nothing to write leaves every table as it was |
| Readiness.SecondReconcileSilentIff | internal/kinds/capp/controllers/controller.go:405-418 | Two reconciles of a well-formed Capp done one after the other: the second writes neither child nor Capp exactly when volumes of one name are one volume |
| Readiness.RouteWatchFiresIff | internal/kinds/capp/controllers/controller.go:225-298 | A changed verdict on a DomainMapping or Certificate fires the watch, except between no Ready condition and one with an empty status |
| Readiness.DuplicateConditionsMissed | internal/kinds/capp/controllers/controller.go:225-235 | With two Ready conditions a change can be missed |
| Readiness.ServiceReadinessUnwatched | internal/kinds/capp/controllers/controller.go:137-154 | Every serving Service can lose its readiness by an update of its status that fires no watch |
| Readiness.UnwatchedLossIsConditions | internal/kinds/capp/controllers/controller.go:137-154 | After a status update that fires no watch a serving Service is out of service exactly when its first Ready condition is gone or not true |
| Admission.ValidateNFSVolumeMounts | internal/webhook/rcs/v1alpha1/validator.go:144-172 | The unmounted volumes' names, each once, sorted |
| Admission.ValidateEventSources | internal/webhook/rcs/v1alpha1/validator.go:197-221 | Refuses at the first source that repeats a name or fails its check; approves exactly the admissible lists |
| Admission.RunChecks | internal/webhook/rcs/v1alpha1/validator.go:77-128 | A denial names the first failing check |
| Admission.Validate | internal/webhook/rcs/v1alpha1/validator.go:50-75 | A Capp under deletion is let through unseen; otherwise it is allowed exactly when it follows the rules, spelled out on its fields, and a denial names a rule that is broken, the first in order |
| Admission.RunRouteChecks | internal/webhook/rcs/v1alpha1/validator.go:77-105 | The checks of hostname, domain name and password secret, in order |
| Admission.AdmissibleFollowsRules | internal/webhook/rcs/v1alpha1/validator.go:77-260 | Passing the checks is following the rules on hostname, domain name, secret, mounts, sources, annotations and scale |
| Admission.DenialExplained | internal/webhook/rcs/v1alpha1/validator.go:77-260 | Whatever a denial says is so: the volumes it names are not mounted, the bound it names is exceeded |
| Admission.ScalingAnnotations | internal/kinds/capp/resourcemanagers/ksvc.go:179-205 | Exactly one of min-scale and activation-scale, max-scale just when asked for, and the texts read back as the numbers |
| Admission.ScalingChoice | internal/kinds/capp/resourcemanagers/ksvc.go:179-227 | Metric, the class and default target of that metric, and the delay just when one is set |
| Admission.ScaleAdmittedIff | internal/webhook/rcs/v1alpha1/validator.go:233-260 | A scale spec is admitted exactly when the annotations derived from it are in order and within the limits |
| Admission.DerivedAnnotationsWin | internal/kinds/capp/resourcemanagers/ksvc.go:98 | Derived annotations win over the Capp's own of the same key, and only of the same key |
| Admission.ConsumersBounded | internal/kinds/capp/resourcemanagers/kafkasource.go:101-107 | Consumers of an admitted source: none when disabled, otherwise between one and the limit |
| Admission.DuplicateVolumesAdmitted | internal/webhook/rcs/v1alpha1/validator.go:144-172 | Admission lets volumes of one name through |
| Admission.SetResourceQuantity | internal/webhook/rcs/v1alpha1/mutator.go:93-105 | The loop over the resource names computes the completed map |
| Admission.Mutate | internal/webhook/rcs/v1alpha1/mutator.go:67-90 | No mutation under deletion; otherwise each container has for CPU and memory its own requests and limits or else the default requests and limits, the user is noted, and nothing else changes |
| Admission.MutatedIsFilled | internal/webhook/rcs/v1alpha1/mutator.go:67-105 | The same, of the function the method is proved against |
| Admission.DefaultsOnlyFillIn | internal/webhook/rcs/v1alpha1/mutator.go:93-105 | Defaults fill in CPU and memory where missing and change nothing that is set |
| Admission.MutatedAgain | internal/webhook/rcs/v1alpha1/mutator.go:67-105 | A second pass for another user changes who updated last and nothing else |
| Runs.RunKeepsInvariant | internal/kinds/capp/controllers/controller.go:349-401 | In every state of every run, also with others creating and changing objects at will: a live Capp that owns anything has its finalizer stored, objects have a spec of their kind. When others only report and remove: a Capp's labelled route objects share one name |
| Runs.HostnameNeverChanges | internal/webhook/rcs/v1alpha1/validator.go:130-142 | Over any run a hostname once set stays while the Capp lives and is not being deleted |
| Runs.ReuseBreaksOneName | internal/kinds/capp/resourcemanagers/domainmapping.go:121-152 | A route object left by an earlier Capp of the name and a new hostname: after a clean pass the Capp has routes under two names |
| Runs.DeletedHostnameMayChange | internal/webhook/rcs/v1alpha1/validator.go:60-62 | Under deletion it may be changed |
| Runs.ConsumerGroupKept | internal/kinds/capp/resourcemanagers/kafkasource.go:84-93 | A KafkaSource keeps its consumer group over every run in which others leave specs alone, for as long as the object lives |
| Runs.FinalizerFirst | internal/kinds/capp/controllers/controller.go:389-393 | Apart from what others do, any step that creates or updates a child is a reconcile of a live Capp whose finalizer is stored |
| Runs.NoManageUnderDeletion | internal/kinds/capp/controllers/controller.go:380-391 | No reconcile of a Capp under deletion creates or updates anything; without the finalizer it does nothing at all |
| Runs.RemovalIsClean | internal/kinds/capp/controllers/finalizer.go:15-39 | Over any run, also with foreign objects under any names and labels, the finalizer, or the Capp, goes only with a complete cleanup: what its managers would still find is owned by it and no TLS secret of a remaining mapping is left - or it is alive and owns nothing |
| Runs.ForeignMappingDoomed | internal/kinds/capp/resourcemanagers/domainmapping.go:83-98 | Such runs do reach a Capp under deletion with a labelled mapping it does not own, which its cleanup is to delete |
| Runs.TLSSecretLeaksIff | internal/kinds/capp/resourcemanagers/domainmapping.go:83-109 | A mapping's TLS secret can outlive any number of interrupted cleanups and a complete one exactly when the Capp does not own the mapping |
| Cluster.Api.Create | internal/kinds/capp/resourceclient/resourceclient.go:19-25 | Answer and effect, settled by the fault of the call and the state: adds the object, an existing name is refused, a lost reply hides a creation |
| Cluster.Api.Update | internal/kinds/capp/resourceclient/resourceclient.go:28-34 | Answer and effect, settled by the fault of the call and the state: replaces the object, a missing one is not found, a lost reply hides a change |
| Cluster.Api.Delete | internal/kinds/capp/resourceclient/resourceclient.go:37-43 | Answer and effect, settled by the fault of the call and the state: removes the object, a missing one is not found, a lost reply hides a removal |
| Cluster.Api.List | internal/kinds/capp/resourcemanagers/helpers.go:115-135 | Without a fault every matching object once, in any order |
| Cluster.Api.Get | internal/kinds/capp/resourcemanagers/kafkasource.go:75 | Without a fault the object, or not found |
| Cluster.Api.UpdateCapp | internal/kinds/capp/controllers/finalizer.go:27-30 | Answer and effect, settled by the fault of the call and the state: a new finalizer under deletion is refused, the last finalizer's removal removes the Capp |
| Sorting.SortSlice | internal/kinds/capprevision/actionmanagers/update.go:35-39 | In place, an ordered permutation |
| Sorting.OrderedUnique | internal/kinds/capp/status/serving.go:44-51 | A comparison that separates the elements leaves one ordered permutation |
| Sorting.OrderDeterminedIff | internal/kinds/capp/status/serving.go:44-51 | A sort determines its result exactly when its comparison separates the elements |
| Sorting.FirstDeterminedIff | internal/kinds/capprevision/actionmanagers/update.go:35-39 | A sort determines the first element exactly when nothing different ties it |
| Text.PaddedRoundTrip | internal/kinds/capprevision/adapters/capprevision_adapter.go:54 | The zero-padded number reads back |
| Text.LessIff | internal/kinds/capp/status/eventing.go:44 | The order of names: the first different character decides, and a prefix comes first |

## Left out

- The SyslogNG output and flow managers and the logging part of the status: the same by-name shape as the
  Knative Service manager, one more step of the pass and of the cascade.
- Certificate key parameters, access modes, content types and similar constants of the children; pod specs are opaque.
- What the children's own finalizers and garbage collection do after a delete is accepted.
- The webhook on the operator's own writes of the Capp (adding and removing the finalizer).
- Resource versions: a conflict is one of the faults a call can meet, not derived from concurrent writes.
- Edits by others between the calls of one pass: steps of other actors come between reconciles.
- Shortening of long child names by hashing: a revision's name is the Capp's name and the number.
- Integer widths: replica counts, limits and times are unbounded integers.
- Domain name patterns, DNS look-ups, cron and JSON checks, secret contents: arbitrary predicates. Decoding and JSON patches.
- Truncation of a long sync error's text; an error's text is a function of its kind.
- Events, log lines, start-up, leader election, RBAC and manifests.
- Managers.CleanUpMapping, Managers.DeleteMappings, Managers.DeleteTLSSecret, Managers.DeleteOrphans, Managers.ApplyRecord,
  Managers.ApplyNext, Managers.ApplySource, Managers.CleanUpListed, Managers.ManageSources, Managers.ManageSingle,
  Managers.PrepareSingle, Controller.RunManager, Controller.RunManagers, Controller.Sync, Controller.SyncAndJudge,
  Controller.Judge, Controller.Proceed, Controller.SyncToEnd, StatusSync.Look, StatusSync.StoreIfChanged, StatusSync.ObserveChildren,
  StatusSync.ReportRevisions, StatusSync.ReportEvents, Revisions.DeleteRevisions, Revisions.TrimAndCreate,
  Revisions.CreateNext, Revisions.UpdateSorted, Admission.RunRouteChecks and Revisions.UpdateWithin are stretches of one body in the source,
  split off here to keep proofs small.
- Runs.RemovalIsClean: does not say when garbage collection removes what the Capp owns; owner references name
  the Capp by kind and name, so what is left after a reuse of the name is up to the assumption on reuse.
- HistoryRuns.RunKeepsInvariant: for limits from 2 to 100 and a clock that moves on between creates; outside these
  the property is false, as the lemmas on limit one, ties and long histories show.
