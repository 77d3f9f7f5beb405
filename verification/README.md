# Camber, verified

A Dafny model of the ownership core of Camber, a structured-concurrency runtime
on Tokio, with the properties its design rests on: who may still run, what may
still exist, and what may still be answered, under every interleaving and every
interruption.

Concurrent protocols are labelled transition systems. One label is one
lock-protected section or one atomic action, an inductive invariant is kept by
every label, and the theorems speak of every reachable state and every
continuation. Code that updates fields in place is a class whose methods are
proved equal to specification functions; the lemmas are about those functions.
Foreign code is an adversary: a provider, network or upstream may do anything
its documented contract allows, and awaits may be cut anywhere.

| files | component |
|---|---|
| `TaskScope`, `ScopeRuns`, `Latch`, `CancelWatcher` | root task scope, shutdown, latches, cancellation watchers |
| `CleanupRegister`, `DnsOrder`, `AcmeProgress`, `Cloudflare`, `CloudflareWire`, `Integration` | DNS-01 orders, cleanup, retry classification, zone authority |
| `Publication`, `CertificateCache`, `Certificate` | crash-safe publication, the cache, certificate coverage |
| `DnsName`, `AcmeDomains`, `SiteAuthority`, `Text` | names, domain sets, site authorities |
| `BodyAdmission`, `CheckedCollect`, `Transfer`, `BoundedUpload`, `UploadRuns`, `UploadFeed`, `GuardedBody`, `GrpcDownload` | HTTP body machines |
| `CircuitBreaker`, `BreakerRuns` | the circuit breaker, one check at a time and overlapping |

`dafny verify dfyconfig.toml` checks everything.

Where a natural reading of the design fails of the code, each with an input and
the exact condition:

- A transfer terminal that carries no refusal ends an upload as `Stopped`, which
  gives the upstream a clean end of a cut body (`UploadRuns.CutBodyEndsCleanly`,
  `UploadRuns.CleanEndIsWhole`).
- A gRPC answer whose head declares more than tonic produces hands out its
  trailers and then fails (`GrpcDownload.ShortAnswerFailsAfterTrailers`,
  `GrpcDownload.TrailersStandAlone`).
- A send that finds no time left clears the progress flag although the write
  before it may not have been accepted (`AcmeProgress.BeginForgets`,
  `AcmeProgress.UnknownExactly`).
- A probe that unwinds leaves the circuit half open, so the next check probes at
  once (`CircuitBreaker.UnwoundProbeStaysHalfOpen`, `CircuitBreaker.NextProbes`).
- Preparation shares one lookup between names that differ in case alone
  (`Cloudflare.TwinsShareZone`, `Cloudflare.OwnZoneExactly`). An order never sends
  such a pair, since its domains are canonical (`Cloudflare.CanonicalOwnZone`).

## Model

| member | source | states |
|---|---|---|
| `TaskScope.AdmitKeeps` | crates/camber/src/runtime_state.rs:776-789 | counting a child while open mints an id no live child has and keeps the books (count, tally, registry) equal to the live slots; closed admission changes nothing |
| `TaskScope.FinishKeeps` | crates/camber/src/runtime_state.rs:1038-1060 | releasing a live slot finds a positive count, keeps the books, and reports drained exactly when no slot is left |
| `TaskScope.CloseKeeps` | crates/camber/src/runtime_state.rs:1067-1074 | closing keeps the books and reports drained exactly when nothing is live |
| `TaskScope.RegisterKeeps` | crates/camber/src/runtime_state.rs:796-808 | registration keeps the books and is accepted exactly for a live async child before the sweep |
| `TaskScope.TakeKeeps` | crates/camber/src/runtime_state.rs:963-970 | a sweep that follows close keeps the books |
| `TaskScope.Scope.Admit` | crates/camber/src/runtime_state.rs:904-910 | refused exactly when admission is not open; otherwise the new id joins the live slots |
| `TaskScope.Scope.RegisterAsync` | crates/camber/src/runtime_state.rs:926-936 | keeps the handle exactly for a live async child before the sweep, else gives that same handle back and changes nothing |
| `TaskScope.Scope.TakeAsyncChildren` | crates/camber/src/runtime_state.rs:963-970 | returns exactly the filled entries, empties the registry, and every id returned is a live async child |
| `TaskScope.Scope.ForceStop` | crates/camber/src/runtime_state.rs:984-1028 | aborts exactly the swept children; those that resolve are joined, and joined plus named is swept |
| `TaskScope.Scope.Finish` | crates/camber/src/runtime_state.rs:1038-1060 | one drop removes one live slot, the count was positive, and drained means nothing is live |
| `TaskScope.Scope.Close` | crates/camber/src/runtime_state.rs:1067-1074 | admission is shut and the closing latch fired; drained means nothing is live |
| `ScopeRuns.StepInv` | crates/camber/src/runtime_state.rs:473-529 | each of the 22 atomic steps of registrars, children, requests and the drain keeps the invariant |
| `ScopeRuns.RunInv` | crates/camber/src/runtime_state.rs:473-529 | so does every run, of any length and interleaving |
| `ScopeRuns.BooksBalance` | crates/camber/src/runtime_state.rs:754-821 | in every reachable state count, tally and registry equal the live slots; the registry is empty after the sweep; Closing has a positive count and Closed has none |
| `ScopeRuns.NoUnadmittedChild` | crates/camber/src/runtime_state.rs:1038-1060 | the release that finds a zero count or an unregistered child is unreachable |
| `ScopeRuns.SweptOrShut` | crates/camber/src/runtime_state.rs:963-1028 | after the sweep a live async child had its own handle swept exactly when it was registered; otherwise its gate is shut and its body has not started |
| `ScopeRuns.RefusedNeverRuns` | crates/camber/src/runtime_state.rs:473-509 | a body runs only behind an admission that answered Ok; a registrar is handed its handle back only once the sweep has run or its own task is gone, and such a child is aborted and never started |
| `ScopeRuns.RegisterRetains` | crates/camber/src/runtime_state.rs:496-509 | registering retains exactly the handle of a task still there and not yet swept past, under that child's own entry, and otherwise changes nothing |
| `ScopeRuns.AbortedForCause` | crates/camber/src/runtime_state.rs:926-1028 | a child is aborted only by the registrar that was refused or by the sweep that holds its handle, so never before the sweep while it lives |
| `ScopeRuns.AdmissionAdvances` | crates/camber/src/runtime_state.rs:473-509 | an admission that has not answered can always take its next step, and that step brings it one nearer its answer |
| `ScopeRuns.AnswersStand` | crates/camber/src/runtime_state.rs:473-509 | no step of anyone sets an admission back, and an answer given stands |
| `ScopeRuns.AdmittedRuns` | crates/camber/src/runtime_state.rs:473-529 | from every reachable open state an admission goes all the way: its handle is retained, it answers Ok, its gate opens and its body runs, and nothing else has changed |
| `ScopeRuns.DropGivesBack` | crates/camber/src/runtime_state.rs:1038-1060 | the drop of that body gives the slot back: the registry, count and live children are as before it |
| `ScopeRuns.RequestAdvances` | crates/camber/src/runtime_state.rs:354-381 | a shutdown request can always go on: it closes admission, fires closing, then fires shutdown |
| `ScopeRuns.DrainGoesOn` | crates/camber/src/runtime_state.rs:1448-1481 | a drain can always go on and each step is one of finitely many left; waiting, it ends clean exactly when nothing is live and escalates otherwise |
| `ScopeRuns.JoinedByStep` | crates/camber/src/runtime_state.rs:984-1028 | what a drain has joined is exactly what its run joined, each child by its own step |
| `ScopeRuns.GoneCanBeJoined` | crates/camber/src/runtime_state.rs:984-1028 | a swept child not yet joined can be joined exactly when its task is gone |
| `ScopeRuns.DeadlineIsFirst` | crates/camber/src/runtime_state.rs:354-358 | along every run the deadline is that of the first transition, whatever came after it |
| `ScopeRuns.OpenUntilAsked` | crates/camber/src/runtime_state.rs:354-381 | admission closes, closing fires and shutdown fires only because a request or the drain got that far; before either, the scope is open |
| `ScopeRuns.MissedNeverStarts` | crates/camber/src/runtime_state.rs:1161-1168 | a child the sweep missed never starts and is never answered Ok, however the run continues |
| `ScopeRuns.SettledExactlyOnce` | crates/camber/src/runtime_state.rs:984-1028 | a settled drain names exactly the swept children it did not join |
| `ScopeRuns.SettledMeansStopped` | crates/camber/src/runtime_state.rs:984-1028 | once settled, a joined child is gone and every async child is gone, aborted, or still owed a refusal by its registrar |
| `ScopeRuns.OneWayRun` | crates/camber/src/runtime_state.rs:718-738 | admission, deadline, latches and the child set only move one way along every run |
| `ScopeRuns.ClosingIsFinal` | crates/camber/src/runtime_state.rs:354-381 | whoever sees closing or shutdown fired finds the deadline minted for good, and no later admission succeeds |
| `ScopeRuns.DrainedForever` | crates/camber/src/runtime_state.rs:1448-1481 | a drain that saw zero leaves the scope closed and empty in every continuation |
| `Latch.NoLostWakeup` | crates/camber/src/runtime_state.rs:140-183 | once a fire completed no waiter sleeps without a pending wake; a waiter returns or is woken only after the latch fired, and it is fired only by a fire that got as far as its store |
| `Latch.WaiterProgress` | crates/camber/src/runtime_state.rs:168-183 | after a completed fire every waiter can take its next step, that step brings it closer, and nobody sets it back |
| `Latch.WaiterReturns` | crates/camber/src/runtime_state.rs:168-183 | so each waiter returns within three steps of its own, in every run |
| `CancelWatcher.StepInv` | crates/camber/src/runtime_state.rs:625-698 | every step keeps each watcher in exactly one fate (current, displaced, stopped, requested or withdrawn), displaced only by the registration after it, and aborted only for that or a stop |
| `CancelWatcher.OnlyCurrentRequests` | crates/camber/src/runtime_state.rs:674-685 | a shutdown request is made exactly by a completed watcher that is current at that step |
| `CancelWatcher.RunForward` | crates/camber/src/runtime_state.rs:625-698 | along every run fates only accumulate, and the panic slot keeps its first panic until it is taken |
| `CancelWatcher.LatestIsCurrent` | crates/camber/src/runtime_state.rs:625-652 | the current watcher is the last one registered, only a later registration displaces one, and a completed watcher is current exactly when none came after it and no stop took it |
| `CancelWatcher.CurrentRequests` | crates/camber/src/runtime_state.rs:674-685 | a current watcher whose future completes normally requests shutdown when it finishes, unless a registration or a stop came before that step |
| `CancelWatcher.LeftAloneRequests` | crates/camber/src/runtime_state.rs:625-685 | from every reachable state a watcher left alone goes from registration to request, displacing and aborting the one before it, and nothing else changes |
| `CancelWatcher.AbortedExactly` | crates/camber/src/runtime_state.rs:641-651 | a displaced watcher is aborted or its successor is about to, a stopped one is, and nobody else is |
| `CancelWatcher.ChangesHaveSteps` | crates/camber/src/runtime_state.rs:625-698 | along every run watchers come from registrations, stops from a stop, and requests from futures that completed normally |
| `CancelWatcher.SlotIsFirstPanic` | crates/camber/src/runtime_state.rs:654-666 | the panic slot holds the first panic since it was last taken |
| `CancelWatcher.PanicIsRecorded` | crates/camber/src/runtime_state.rs:654-666 | a watcher whose future panicked is over only once that panic has been recorded |
| `CancelWatcher.DroppedNeverRequests` | crates/camber/src/runtime_state.rs:634-640 | a watcher dropped before its future completed is over and never requests |
| `CancelWatcher.StopIsFinal` | crates/camber/src/runtime_state.rs:695-697 | after a stop nothing registered before it requests any more |
| `CancelWatcher.SupersededNeverRequests` | crates/camber/src/runtime_state.rs:625-652 | a displaced, stopped or panicked watcher never requests shutdown in any continuation |
| `CancelWatcher.PanicOnlyRecords` | crates/camber/src/runtime_state.rs:654-666 | a panicking watcher fills the panic slot unless an earlier panic is still in it, and shuts nothing down |
| `CancelWatcher.AtMostOneCurrent` | crates/camber/src/runtime_state.rs:687-693 | every watcher but the newest has been displaced, stopped, or has finished |
| `CleanupRegister.ItemsNameOwed` | crates/camber/src/integration_lifecycle/cleanup.rs:53-62 | every owed record, and nothing else, has its item in the account |
| `CleanupRegister.ItemsCountOwed` | crates/camber/src/integration_lifecycle/cleanup.rs:170-188 | distinct owed records have distinct items |
| `CleanupRegister.Register.Intend` | crates/camber/src/integration_lifecycle/cleanup.rs:98-110 | an intention is written last, and refused exactly when the account is full |
| `CleanupRegister.Register.Acknowledge` | crates/camber/src/integration_lifecycle/cleanup.rs:113-115 | exactly the named slot becomes created under the acknowledged id |
| `CleanupRegister.Register.Resolve` | crates/camber/src/integration_lifecycle/cleanup.rs:134-136 | exactly the named slot is resolved, so it is owed no longer |
| `CleanupRegister.Register.Update` | crates/camber/src/integration_lifecycle/cleanup.rs:190-195 | a slot outside the register changes nothing; inside it only that slot's state changes |
| `CleanupRegister.CreatedSlots` | crates/camber/src/integration_lifecycle/cleanup.rs:139-148 | lists, in order and once each, slots that hold a created record under the id they hold |
| `CleanupRegister.CreatedSlotsComplete` | crates/camber/src/integration_lifecycle/cleanup.rs:139-148 | and misses none of them |
| `CleanupRegister.Register.MarkDeleting` | crates/camber/src/integration_lifecycle/cleanup.rs:118-123 | only the named record changes, and only when it is created: it becomes deleting under its id |
| `CleanupRegister.Register.MarkFailed` | crates/camber/src/integration_lifecycle/cleanup.rs:126-131 | only a record being deleted becomes stuck, with the failure that stopped it |
| `CleanupRegister.Register.Expire` | crates/camber/src/integration_lifecycle/cleanup.rs:152-161 | every acknowledged record still waiting for its delete becomes stuck under its id, as a timeout, and nothing else changes |
| `CleanupRegister.Register.Incomplete` | crates/camber/src/integration_lifecycle/cleanup.rs:170-188 | answers nothing exactly when nothing is owed; otherwise an error whose account names every owed record, none lost to truncation |
| `DnsOrder.LateWriteIsOwned` | crates/camber/src/dns01/intention.rs:33-67 | a create cut off and landing later is still owned by its intention |
| `DnsOrder.Provider.CreateTxt` | crates/camber/src/dns01/provider.rs:41-56 | the adversary's contract: an answered id names a record in the zone, a typed error of known outcome left nothing, anything else may have left one |
| `DnsOrder.Provider.DeleteTxt` | crates/camber/src/dns01/provider.rs:58-66 | only an acknowledged id may be deleted, nothing else leaves the zone, and only an Ok promises it is gone |
| `DnsOrder.CreateRecord` | crates/camber/src/dns01/intention.rs:33-67 | whatever the provider answers and wherever the call is cut, every record in the zone has an unresolved slot naming it; exactly the given name and value are submitted, and the new slot and the answer are what that one call calls for: created under the acknowledged id, resolved after a refusal that created nothing, and intended otherwise |
| `DnsOrder.CreateDnsChallenges` | crates/camber/src/dns01/order.rs:453-485 | keeps that ownership through every interruption; wherever it ends, exactly the challenge names and values of the pending authorizations dealt with were recorded and submitted, in order, each slot as its own call left it; it succeeds exactly when all passed and every create was answered, and otherwise answers what stopped it; the register refuses one only past its room, so never for an order of at most a hundred |
| `DnsOrder.DeleteOne` | crates/camber/src/dns01/cleanup.rs:49-68 | one delete keeps ownership and leaves its slot as its call came back: resolved exactly on an Ok, stuck under its id with the provider's failure on an error or an unwinding, and deleting when cut; no other slot moves |
| `DnsOrder.DeleteCreated` | crates/camber/src/dns01/cleanup.rs:49-68 | the deletes sent go to the acknowledged slots in order, one each, each slot is left as its own call said, and only a call that was cut keeps the later ones from being tried |
| `DnsOrder.CleanUp` | crates/camber/src/dns01/cleanup.rs:30-44 | every slot is left as its own delete says; a slot whose delete was answered is resolved, one left unanswered when the bound passed is stuck as a timeout, none is left deleting, and every leftover is still owned |
| `DnsOrder.IssueThenClean` | crates/camber/src/dns01/order.rs:211-246 | cleanup runs however issuing went; what is left owed outranks the issue's own answer, which it carries as its source; with every create and delete answered the answer is the finished order's |
| `DnsOrder.Open` | crates/camber/src/dns01/order.rs:249-307 | preparation, account and new order, in that order: the answer is that of the first that stops, fails or is cut |
| `DnsOrder.OwnedIsNamed` | crates/camber/src/dns01/cleanup.rs:75-84 | an owned leftover is named, by its id when the id was acknowledged, with the failure it is left under |
| `DnsOrder.LateWriteIsNamed` | crates/camber/src/dns01/cleanup.rs:75-84 | a create that lands only after the order answered was named by that answer |
| `DnsOrder.OneItemEach` | crates/camber/src/error/integration.rs:335-345 | leftovers never share an item of the account |
| `DnsOrder.Issue` | crates/camber/src/dns01/order.rs:310-338 | issuing under any script of stops and cuts keeps ownership and sends no delete; its answer is the stop's, that of the challenge which failed, or what the finished order gave |
| `DnsOrder.LoadOrCreateAccount` | crates/camber/src/dns01/order.rs:342-444 | a usable or corrupt account file is left as it is; a new account is stored atomically, durably when no file operation was refused, and touches no other file; failing to store it does not fail the order; the answer is exactly that of the file's contents and the ACME side, or the refusal to read it |
| `DnsOrder.RunOrder` | crates/camber/src/dns01/order.rs:211-246 | for every provider, disk and interruption each record that may be in the zone has its own slot, left as its create and its delete answered; an answered order names every owed slot in its error, or answers with the failure that stopped it when nothing is owed; it returns a certificate only with an empty zone, nothing owed, and that certificate valid and durably cached; an order that meets no stop, no failed call and no refused file operation answers with the bundle of the very pair it was issued, if that pair is valid; while a record is left the bundle is unseen to change, and files other than bundle and account always are |
| `DnsOrder.PublishIssued` | crates/camber/src/dns01/order.rs:516-532 | on any disk: an invalid pair leaves the disk untouched; a valid one is answered with its own bundle, durably cached, exactly when no file operation was refused and a temporary name was free |
| `DnsOrder.FineChallenges` | crates/camber/src/dns01/order.rs:453-485 | with every authorization usable, every create answered and at most a hundred of them, raising the challenges does not fail |
| `DnsOrder.AccountCrowdsNothing` | crates/camber/src/dns01/publication.rs:70-97 | storing an account takes none of the temporary names a bundle would be staged under |
| `Publication.EveryDiskIsSound` | crates/camber/src/dns01/publication.rs:42-49 | the precondition of every publication step is met by every disk, torn or not |
| `Publication.RestartFinds` | crates/camber/src/dns01/publication.rs:99-115 | what a crash image holds whole is what a restart reads, and all that later crashes can leave |
| `Publication.BesideKeepsOthers` | crates/camber/src/dns01/publication.rs:70-115 | a disk reached by changing only a destination and its temporary name reads the same everywhere else, now and after any crash |
| `Publication.TempIsNotDestination` | crates/camber/src/dns01/publication.rs:70-97 | no temporary name is its destination, and all are recognisably temporary |
| `Publication.CreatePending` | crates/camber/src/dns01/publication.rs:70-97 | a pending file takes a name nobody had, and neither readers nor crashes see it at the destination; it fails only when the file system refused or all sixteen names were taken |
| `Publication.Prepare` | crates/camber/src/dns01/publication.rs:118-127 | contents are written, synced and restricted before anything is published; every failure on the way is unseen at the destination |
| `Publication.RemovePending` | crates/camber/src/dns01/publication.rs:149-168 | dropping a pending file removes at most that file, unseen at the destination |
| `Publication.PublishPending` | crates/camber/src/dns01/publication.rs:99-127 | write, commit and drop together: any failure before the rename leaves the old contents, live and durable |
| `Publication.RenamePublishes` | crates/camber/src/dns01/publication.rs:99-115 | renaming a synced file shows the new contents at once and leaves every crash image whole: the old contents or the new |
| `Publication.Commit` | crates/camber/src/dns01/publication.rs:99-115 | a failed rename changes nothing; after a rename every observation is the new contents, durable once the directory is synced |
| `Publication.WritePrivateFile` | crates/camber/src/dns01/publication.rs:42-127 | on any disk, at every step, a reader sees the whole old or the whole new contents and a crash leaves what it could have left before or the whole new contents; a failure before the rename changes neither; success is durable; it fails only at a stage that was refused or had no temporary name free, and names that stage; no temporary name stays unless its removal was refused; at every step every other file reads as it did, now and after any crash |
| `CertificateCache.Inspect` | crates/camber/src/dns01/cache.rs:97-102 | what inspection finds is exactly a function of the disk: the bundle when present, else the legacy pair, else absence; it is unreadable exactly when a read was refused |
| `CertificateCache.ReadOptional` | crates/camber/src/dns01/cache.rs:226-232 | answers exactly the file's whole contents, or absence, unless the file system refused the read |
| `CertificateCache.WriteCacheFile` | crates/camber/src/dns01/cache.rs:165-174 | carries all of that to any one file of the cache directory, creating the directory first; it succeeds exactly when nothing was refused and a temporary name was free |
| `CertificateCache.PublishGeneration` | crates/camber/src/dns01/cache.rs:151-157 | and so to the cached bundle, on any disk |
| `CertificateCache.ReadGeneration` | crates/camber/src/dns01/cache.rs:38-44 | on any disk: the answer is that of what the disk holds, unreadable only if a read was refused and a failed write only while migrating a legacy pair; a returned generation is the bundle on disk afterwards, durable when a legacy pair was migrated for it; a present bundle is never rewritten by a read; the disk changes only from a valid legacy pair towards its bundle, atomically |
| `CertificateCache.BundleDecides` | crates/camber/src/dns01/cache.rs:205-218 | with a bundle present no other file matters, and a corrupt bundle is an error, never bypassed for a legacy pair |
| `CertificateCache.StepServes` | crates/camber/src/dns01/cache.rs:38-44 | one crash, one read, or one write of another file, whole or cut short, leaves a durable bundle durable, and a read answers it |
| `CertificateCache.ReadEverAfter` | crates/camber/src/dns01/cache.rs:38-102 | after a durable publication, across every sequence of reads, crashes and writes of other files, each read answers the published generation exactly while its window holds and its names cover what is asked, unless the file system refused that very read |
| `CertificateCache.MigratedEverAfter` | crates/camber/src/dns01/cache.rs:80-102 | a legacy pair once returned is served as the bundle by every later read, across crashes |
| `CertificateCache.RenewsExactly` | crates/camber/src/dns01/cache.rs:123-132 | across the same sequences, a renewal pass whose read was not refused leaves the certificate alone exactly while it serves what is asked and more than the renewal window is left |
| `DnsName.NameShapeLegal` | crates/camber/src/config/dns_name.rs:49-80 | the character scan accepts exactly the names whose label list is legal and short enough |
| `DnsName.LabelsShapeLegal` | crates/camber/src/config/dns_name.rs:63-80 | the label scan accepts exactly lists of legal labels |
| `DnsName.CanonicalIsFixed` | crates/camber/src/config/dns_name.rs:24-41 | a canonical name is lower case, legal, and canonical again |
| `DnsName.CanonicalExactly` | crates/camber/src/config/dns_name.rs:24-41 | a name is accepted exactly when, without its root dot, it is legal and short enough; it is kept in lower case, a root dot makes no difference, and a star anywhere is refused as a wildcard |
| `DnsName.NameRefusedFor` | crates/camber/src/config/dns_name.rs:49-61 | a name is refused for its length first, then for having no labels, then for its labels, and last for looking like an address |
| `DnsName.FirstBadLabel` | crates/camber/src/config/dns_name.rs:49-61 | labels are refused for the first one out of shape |
| `DnsName.LabelRefusedFor` | crates/camber/src/config/dns_name.rs:63-80 | each reason names what is wrong with the label, in the order it is looked for |
| `AcmeDomains.SortedDecides` | crates/camber/src/config/acme_domains.rs:93-103 | sorting and comparing neighbours finds a repeat exactly when some pair repeats |
| `AcmeDomains.NeighboursDecide` | crates/camber/src/config/acme_domains.rs:93-103 | in a sorted list equal names are neighbours |
| `AcmeDomains.CheckDistinct` | crates/camber/src/config/acme_domains.rs:93-103 | refuses exactly the lists with a repeated name, naming one that occurs more than once |
| `AcmeDomains.CanonicalNameLegal` | crates/camber/src/config/acme_domains.rs:106-120 | a name is accepted exactly when its labels are legal and its wildcard allowed, and becomes its lower-case form without the root dot |
| `AcmeDomains.ValidateDomains` | crates/camber/src/config/acme_domains.rs:65-76 | accepts exactly the non-empty, legal sets of at most a hundred under DNS-01, wildcards only there, that are pairwise distinct up to case and root dot, and returns their canonical forms in order; a refusal names the count, the first illegal name's fault, or a canonical name that occurs twice |
| `AcmeDomains.NamesRefused` | crates/camber/src/config/acme_domains.rs:65-76 | the first domain that is not legal decides how a list is refused |
| `AcmeDomains.ValidatingTwice` | crates/camber/src/config/acme_domains.rs:65-120 | validating an accepted output accepts it and returns it unchanged |
| `Certificate.SanCoversIsLabelRule` | crates/camber/src/dns01/certificate.rs:174-193 | string-level coverage equals the label-list rule of section 6.4.3 of RFC 6125, for every SAN and domain |
| `Certificate.WildcardCoversLabels` | crates/camber/src/dns01/certificate.rs:183-193 | wildcard string matching equals one leftmost star standing for one non-empty label without a star |
| `Certificate.WildcardOnlyByItself` | crates/camber/src/dns01/certificate.rs:174-193 | a wildcard domain is covered exactly by the same wildcard |
| `Certificate.WildcardIsOneLabel` | crates/camber/src/dns01/certificate.rs:183-193 | coverage never adds or drops a label |
| `Certificate.ValidateAdmits` | crates/camber/src/dns01/certificate.rs:99-167 | a bundle is admitted exactly when it parses, the time is inside its window and every domain is covered by the label rule |
| `Certificate.RefusedFor` | crates/camber/src/dns01/certificate.rs:99-172 | each refusal is given exactly when it is true: unusable, not yet valid, expired, or a domain no name covers |
| `Certificate.BundleIsBoth` | crates/camber/src/dns01/certificate.rs:85-97 | a bundle begins with the certificate and ends with the key on a line of its own, with at most a line break between |
| `Certificate.RenewalDueIsExact` | crates/camber/src/dns01/certificate.rs:42-45 | renewal is due exactly less than thirty days before the end, saturation notwithstanding |
| `SiteAuthority.Ipv4IsCanonical` | crates/camber-cli/src/config/authority.rs:130-137 | a text read as an IPv4 address is the text that address prints as |
| `SiteAuthority.Ipv4Exactly` | crates/camber-cli/src/config/authority.rs:130-137 | the texts read as addresses are exactly what four octets up to 255 print as |
| `SiteAuthority.AcceptedExactly` | crates/camber-cli/src/config/authority.rs:19-55 | text is accepted if and only if it spells a separable host that has a canonical form, alone or with one decimal port in 1..65535 |
| `SiteAuthority.ParsedAs` | crates/camber-cli/src/config/authority.rs:84-140 | an accepted authority is kept as its host, an address as it stands, a DNS name in lower case without its root dot, a bracketed one in standard form, and its port without leading zeros |
| `SiteAuthority.PortRefused` | crates/camber-cli/src/config/authority.rs:46-55 | a port that is empty, not decimal, zero or too large is refused as that, before the host is looked at |
| `SiteAuthority.UnsplitRefused` | crates/camber-cli/src/config/authority.rs:19-44 | an unclosed bracket, text after one, and a bare IPv6 address are each refused as that |
| `SiteAuthority.PrintedParses` | crates/camber-cli/src/config/authority.rs:19-55 | every canonical host, with any port in 1..65535 or none, prints to text that parses back to it |
| `SiteAuthority.ParseIsRetraction` | crates/camber-cli/src/config/authority.rs:84-97 | parsing canonical text gives the same text, host length and kind |
| `SiteAuthority.RoutingHostHasNoPort` | crates/camber-cli/src/config/authority.rs:105-117 | the routing host alone is an authority without a port, the text is that host and at most a port, and a certificate name is a legal lower-case DNS name |
| `Cloudflare.LookupZone` | crates/camber/src/dns01/cloudflare.rs:100-125 | the shrinking-candidate loop terminates and computes the recursive lookup |
| `Cloudflare.LongestSuffixDecides` | crates/camber/src/dns01/cloudflare.rs:100-125 | the lookup is decided by the longest suffix of two labels or more with a non-empty answer, with everything longer empty and nothing broader tried; without one it is refused |
| `Cloudflare.FoundZoneIsNamed` | crates/camber/src/dns01/cloudflare.rs:117-121 | a zone found is the only zone its suffix was answered with, bears that very name up to case and root dot, and has an id |
| `Cloudflare.NamedZoneIsFound` | crates/camber/src/dns01/cloudflare.rs:100-125 | conversely, the first suffix with a non-empty answer is found if that answer is one zone with an id and the suffix's own name up to case and root dot, fails as its answer failed, and is refused otherwise |
| `Cloudflare.EveryDomainResolves` | crates/camber/src/dns01/cloudflare.rs:129-167 | after a successful preparation every domain's challenge name, in any case and with or without its root dot, resolves to the zone looked up for the first configured domain equal to it up to case |
| `Cloudflare.PreparesExactly` | crates/camber/src/dns01/cloudflare.rs:129-167 | a preparation succeeds exactly when the first of each set of domains alike up to case has a zone |
| `Cloudflare.PreparationFailsAt` | crates/camber/src/dns01/cloudflare.rs:129-167 | a failed preparation answers the failed lookup of a domain no earlier one is like |
| `Cloudflare.WildcardResolvesAsBase` | crates/camber/src/dns01/cloudflare.rs:249-251 | a wildcard's challenge is its base's, so both resolve to one zone |
| `Cloudflare.OwnZoneExactly` | crates/camber/src/dns01/cloudflare.rs:145-160 | a domain resolves to its own zone under every API if and only if that first domain is spelled the same, or no preparation can succeed because some domain has one label |
| `Cloudflare.CanonicalOwnZone` | crates/camber/src/dns01/provider.rs:30-39 | canonical domains, which an order prepares, resolve to their own zones |
| `Cloudflare.TwinsShareZone` | crates/camber/src/dns01/cloudflare.rs:148-154 | two spellings of one name, an API that tells them apart, and the second resolved to the first one's zone |
| `CloudflareWire.KnownExactly` | crates/camber/src/dns01/cloudflare_wire.rs:40-156 | a failed write is typed with a known outcome if and only if it was never sent or the service refused it |
| `CloudflareWire.QueriesAreKnown` | crates/camber/src/dns01/cloudflare_wire.rs:40-156 | a failed query is never typed with an unknown outcome |
| `CloudflareWire.ReadExactly` | crates/camber/src/dns01/cloudflare_wire.rs:40-156 | an exchange is read as its result exactly when the service confirmed it, and every other one fails by the table of status, error code, body and effect |
| `Cloudflare.CreatedExactly` | crates/camber/src/dns01/cloudflare.rs:186-192 | a create answers an id exactly on a confirmation that names one; a confirmation without one has an unknown outcome |
| `Cloudflare.BuiltInTellsTruth` | crates/camber/src/dns01/cloudflare.rs:186-192 | the built-in provider keeps the promise orders rely on: an answered id was written, and a failure of known outcome wrote nothing |
| `Cloudflare.BuiltInDeletesTruly` | crates/camber/src/dns01/cloudflare.rs:195-214 | a delete succeeds exactly when the service confirmed it, so success means the record is gone |
| `Cloudflare.CloudflareProvider.Prepare` | crates/camber/src/dns01/cloudflare.rs:129-167 | the whole map is published when every lookup succeeded; any failure leaves no authority |
| `Cloudflare.CloudflareProvider.CreateTxtRecord` | crates/camber/src/dns01/cloudflare.rs:169-193 | the one request sent goes to the zone of a prepared name, nothing is sent otherwise, and exactly an answered id is remembered with that zone |
| `Cloudflare.CloudflareProvider.DeleteTxtRecord` | crates/camber/src/dns01/cloudflare.rs:195-214 | only a remembered record is deleted, in the zone it was created in, and it is forgotten exactly when the delete succeeded |
| `Cloudflare.Remembered` | crates/camber/src/dns01/cloudflare.rs:232-245 | remembering a record changes the zone of no record already known |
| `Cloudflare.Forgotten` | crates/camber/src/dns01/cloudflare.rs:232-245 | forgetting one removes exactly that one |
| `AcmeProgress.UncertainStaysUnknown` | crates/camber/src/dns01/acme_progress.rs:65-121 | an error is classified unknown exactly when a write is uncertain and the server did not refuse it; a refusal is safe to retry exactly when the server asked for a retry |
| `AcmeProgress.ClassifiedExactly` | crates/camber/src/dns01/acme_progress.rs:65-121 | the whole classification, by status, type suffix, transport failure and flag |
| `AcmeProgress.SubmitRaises` | crates/camber/src/dns01/acme_progress.rs:25-37 | a submission raises the flag exactly when it is no GET and no HEAD and is unsigned or signed over a payload |
| `AcmeProgress.FlagIsOpen` | crates/camber/src/dns01/acme_progress.rs:25-49 | the flag is set exactly when some write was submitted and every later event is a failed SDK operation |
| `AcmeProgress.Progress.Submitting` | crates/camber/src/dns01/acme_progress.rs:25-37 | after a submission the flag says whether it was a write |
| `AcmeProgress.Progress.Settled` | crates/camber/src/dns01/acme_progress.rs:40-42 | beginning, a failed connection and an acceptance each leave no uncertain write |
| `AcmeProgress.UnknownExactly` | crates/camber/src/dns01/acme_transport.rs:122-152 | when the last request sent is an unaccepted write over a live connection, the flag says so if and only if no later send has begun |
| `AcmeProgress.KnownOtherwise` | crates/camber/src/dns01/acme_progress.rs:39-49 | without such a request the outcome is never unknown |
| `AcmeProgress.BeginForgets` | crates/camber/src/dns01/acme_transport.rs:128-131 | a send that finds no time left clears the flag of the write before it |
| `AcmeProgress.Progress.Send` | crates/camber/src/dns01/acme_transport.rs:122-152 | whatever the network does and whichever wait is dropped, the flag agrees with the history, the history is exactly begin, then submit, then a failed connection, and each outcome of the send is answered exactly when it happened |
| `AcmeProgress.Progress.Finish` | crates/camber/src/dns01/acme_progress.rs:52-84 | acceptance settles; an error is classified under whether a write stands open in the history, and is unknown exactly when one does and the server did not refuse |
| `AcmeProgress.Progress.Retry` | crates/camber/src/dns01/acme_progress.rs:44-49 | a stopped order reports unknown exactly when a write stands open |
| `BodyAdmission.CheckedTotalIsExact` | crates/camber/src/http/body_admission.rs:473-477 | word arithmetic agrees with exact integers for every word-sized limit |
| `BodyAdmission.GrantIsNarrow` | crates/camber/src/http/body_admission.rs:384-425 | a grant is the tighter of ceiling and policy maximum, a declaration is admitted exactly when it fits both, and a rejection names its cause: the ceiling first, then the policy's own answer, then its maximum |
| `BodyAdmission.BodyBudget.AdmitFrame` | crates/camber/src/http/body_admission.rs:485-530 | a frame is admitted exactly when the exact running total fits; a refused frame counts nothing |
| `CheckedCollect.CheckedCollector.Keep` | crates/camber/src/http/checked_collect.rs:156-168 | a chunk is kept exactly when it fits, and the bytes held never pass the ceiling, even at their peak |
| `CheckedCollect.CollectChecked` | crates/camber/src/http/checked_collect.rs:306-333 | the result is the concatenation of all chunks exactly when declaration and true sum fit; otherwise it refuses at the declaration, having reserved nothing, or at the first read that crosses or fails; a declaration that fits reserves itself, up to the fixed cap |
| `Transfer.FirstReadyIsReady` | crates/camber/src/http/operation.rs:234-270 | a turn commits one of its ready facts, and commits nothing only when none is ready |
| `Transfer.OwnReadDecides` | crates/camber/src/http/operation.rs:225-270 | what the owner read itself decides its turn before anything carried, a peer's end before the failure it causes, and a normal end only when nothing else was read |
| `Transfer.FirstReadyExactly` | crates/camber/src/http/operation.rs:225-270 | among what it read itself a turn commits the fact that comes first in the order of that read, and one it only carries exactly when it read none; the carried facts are not ranked among themselves |
| `Transfer.SilentExactly` | crates/camber/src/http/transfer.rs:668-693 | a terminal has a refusal, of status 413, 408 or 400, exactly when it is the transfer's own maximum, idle or total deadline, or a failed source |
| `Transfer.TurnConserves` | crates/camber/src/http/transfer.rs:328-366 | payload is conserved: each turn delivers the next payload of its source or leaves it to come; a normal end means none was left and the source ended; an early end has a carried cause, more payload than the maximum, or a failed source |
| `Transfer.OneTerminal` | crates/camber/src/http/transfer.rs:328-366 | over any run of polls the first final answer, a normal end or a terminal, is the answer of every later poll |
| `Transfer.RunDelivers` | crates/camber/src/http/transfer.rs:328-366 | over any run of polls the frames delivered, joined, are a prefix of the source's payload inside the maximum, and all of it, the source having ended, once the run answers its normal end |
| `Transfer.TurnDecides` | crates/camber/src/http/transfer.rs:328-366 | a turn answers the first of what it read and what it carries, and only when there is neither the next payload or nothing yet; each turn that can read takes something from its source |
| `Transfer.PendingMeansWaiting` | crates/camber/src/http/transfer.rs:328-366 | with nothing carried a turn answers nothing yet exactly when, past every blank item, the source itself waits |
| `Transfer.QuietRunFinishes` | crates/camber/src/http/transfer.rs:328-366 | polled more often than its source has items, with nothing carried, a transfer answers the end, the failure or the excess that comes first in its source, and nothing final if none does |
| `Transfer.StreamTransfer.Poll` | crates/camber/src/http/transfer.rs:328-366 | the restarting loop computes the specified turn, for any run of empty frames |
| `Transfer.StreamTransfer.Settle` | crates/camber/src/http/transfer.rs:357-364 | a ready terminal is fixed and releases the frame in hand; otherwise that frame is delivered |
| `BoundedUpload.RefusedExactly` | crates/camber/src/http/async_proxy.rs:1199-1247 | a live upload is refused exactly on a frame that crosses its grant or a terminal with a refusal, never once stopped, and the refusal names that cause; every other frame is forwarded unchanged |
| `BoundedUpload.CleanEndCauses` | crates/camber/src/http/async_proxy.rs:1182-1207 | a live upload ends its stream cleanly exactly on a stop, the source's end, or a terminal without a refusal |
| `UploadRuns.CleanEndIsWhole` | crates/camber/src/http/async_proxy.rs:1182-1247 | in every run, a stream that ends cleanly forwarded everything read, and the source had ended if and only if the poll saw no stop and read no terminal without a refusal |
| `UploadRuns.CutBodyEndsCleanly` | crates/camber/src/http/async_proxy.rs:1320-1325 | the run, from the start, in which a forced cancellation ends the upstream's stream cleanly on a body that had not ended, with nobody asking to stop |
| `BoundedUpload.StreamingUpload.Poll` | crates/camber/src/http/async_proxy.rs:1162-1247 | one poll of the upload object is the specified step, biased on the stop |
| `BoundedUpload.StreamingUpload.Finish` | crates/camber/src/http/async_proxy.rs:1254-1268 | reporting releases the permit and takes both senders, whatever the ending |
| `UploadRuns.StepInv` | crates/camber/src/http/async_proxy.rs:1156-1269 | every step of upload, coordinator, upstream and competing producers keeps the invariant |
| `UploadRuns.RunInv` | crates/camber/src/http/async_proxy.rs:1360-1374 | so does every run |
| `UploadRuns.ForwardedWithinGrant` | crates/camber/src/http/async_proxy.rs:1199-1215 | in every run what was forwarded is a prefix of the peer's payload, inside the grant |
| `UploadRuns.ErrorIsLast` | crates/camber/src/http/async_proxy.rs:1240-1247 | the upstream sees at most one stream error, as its last item, and only on a body that did not end |
| `UploadRuns.PermitReleasedOnce` | crates/camber/src/http/async_proxy.rs:1254-1268 | the permit is released at most once, and has been once the upload ended, was dropped, or was heard from |
| `UploadRuns.AcknowledgedOnce` | crates/camber/src/http/async_proxy.rs:1254-1268 | an ended upload acknowledged exactly once |
| `UploadRuns.DrainedIsWhole` | crates/camber/src/http/async_proxy.rs:1451-1464 | an answer that calls the upload drained follows the whole payload, forwarded without error |
| `UploadFeed.FedRunIsRun` | crates/camber/src/http/async_proxy.rs:1182-1207 | an upload run over the transfer and the incoming body's frames is a run of the upload, so every result about those holds of it |
| `UploadFeed.ForwardsTheBody` | crates/camber/src/http/async_proxy.rs:1131-1153 | over any incoming body the upstream is given a prefix of that body's payload, inside the grant |
| `UploadFeed.DrainedForwardsAll` | crates/camber/src/http/async_proxy.rs:1451-1464 | an answer that calls the upload drained follows every byte of an incoming body that ended |
| `UploadFeed.CleanEndForwardsAll` | crates/camber/src/http/async_proxy.rs:1182-1247 | a clean end has forwarded the whole incoming body if no stop was seen and no terminal without a refusal was fixed, and saw no end of it otherwise |
| `UploadRuns.RefusalOwnsItsAnswer` | crates/camber/src/http/async_proxy.rs:1387-1415 | the refusal is the peer's answer exactly when it took the commitment, and then the body was cut by an error |
| `UploadRuns.RefusalIsNeverLost` | crates/camber/src/http/async_proxy.rs:1387-1415 | while the race runs a refused upload has its refusal on the channel, and whether it is taken or found when the upstream fails, it answers if the cell is free; so a request fails as a proxy only when the upload was not refused |
| `UploadRuns.EndIsHeard` | crates/camber/src/http/async_proxy.rs:1451-1464 | until the coordinator answers, the end of an upload is on its channel, drained exactly when the source ended; only a dropped upload ends unheard |
| `UploadRuns.EveryAnswerHasItsCause` | crates/camber/src/http/async_proxy.rs:1360-1464 | in every run each answer and each commitment has the step it belongs to, and an upstream answer that was not given up waiting for says how the upload ended |
| `UploadRuns.AnswerPassedOn` | crates/camber/src/http/async_proxy.rs:1419-1464 | from every racing state whose upload has ended, the upstream's answer commits its head and is passed on as drained exactly when the source ended |
| `UploadRuns.FirstCommitWins` | crates/camber/src/http/response_commitment.rs:240-253 | the first step with something to commit takes the cell, with exactly that, and keeps it |
| `UploadRuns.LoserReportsWinner` | crates/camber/src/http/async_proxy.rs:1387-1394 | a refusal that found the cell taken reports the committed cause, or its own when a head holds the cell |
| `UploadRuns.CommitmentIsFinal` | crates/camber/src/http/response_commitment.rs:240-253 | the first commitment stands for the rest of every run |
| `UploadRuns.NeverRefusedAfterCommit` | crates/camber/src/http/async_proxy.rs:1419-1436 | once a head or another cause is committed no continuation answers with the refusal |
| `UploadRuns.StoppedForwardsNothing` | crates/camber/src/http/async_proxy.rs:1182-1192 | once a stop is asked and seen, nothing more is forwarded in any continuation |
| `GuardedBody.ResponseBody.Poll` | crates/camber/src/http/body.rs:227-248 | one poll of the body object is the specified step |
| `GuardedBody.ResponseBody.Produced` | crates/camber/src/http/body.rs:137-146 | a frame counts down what is owed, saturating, and completes at zero |
| `GuardedBody.ResponseBody.EndedOn` | crates/camber/src/http/body.rs:194-220 | a failure is fixed once, and its cause recorded in a cell only the first writer sets |
| `GuardedBody.FailureShape` | crates/camber/src/http/body.rs:179-248 | the poll that finds a failure records its cause and answers nothing, the next hands it over, every later one ends; from the cause on no frame leaves and no completion is recorded |
| `GuardedBody.ErrorsAreDetected` | crates/camber/src/http/body.rs:194-248 | every error handed over was found by the poll just before it: the wrapped body failed, or ended owing declared bytes |
| `GuardedBody.AtMostOneError` | crates/camber/src/http/body.rs:227-248 | no script of inner polls yields two errors |
| `GuardedBody.Transparent` | crates/camber/src/http/body.rs:227-248 | until a failure is found every poll is answered as the wrapped body answers it |
| `GuardedBody.FailedByDetection` | crates/camber/src/http/body.rs:194-248 | a body has failed exactly when some poll found a failure |
| `GuardedBody.CountdownIsExact` | crates/camber/src/http/body.rs:137-146 | what is still owed is the declared length less the bytes handed out |
| `GuardedBody.CompletesOnLength` | crates/camber/src/http/body.rs:137-166 | a body with a declared length completes if and only if that length was handed out |
| `GuardedBody.CompletesOnEnd` | crates/camber/src/http/body.rs:160-187 | one without completes if and only if a reported last frame or a clean end was reached before any failure |
| `GuardedBody.CleanEndIsWhole` | crates/camber/src/http/body.rs:179-187 | a clean end comes only after the whole declared length, and completes |
| `GuardedBody.EveryStopIsResolved` | crates/camber/src/http/body.rs:125-166 | however Hyper stops polling, the response is completed or has failed |
| `GuardedBody.EveryResponseIsResolved` | crates/camber/src/http/body.rs:94-122 | from construction to Hyper's last poll, every response is completed or has failed; one Hyper never polls is completed at once and no other is, an upgrade aside |
| `GrpcDownload.DownloadBody.Poll` | crates/camber/src/http/grpc_handoff.rs:254-285 | one poll of the answer's body is the specified step over its transfer |
| `GrpcDownload.DownloadBody.TakeTrailers` | crates/camber/src/http/grpc_handoff.rs:279-285 | the captured trailer set is handed over and forgotten, and the body ends |
| `GrpcDownload.AnswerShape` | crates/camber/src/http/grpc_handoff.rs:149-285 | for every source, bound, head and run of polls, through transfer, handoff and guard: data is a prefix of tonic's payload inside the bound, trailers leave at most once and after all of it, at most one failure leaves, the account names the terminal that caused it, with nothing carried only an answer over its bound or short of its declared length fails, and completion is exact |
| `GrpcDownload.WholeAnswerLeaves` | crates/camber/src/http/grpc_handoff.rs:254-285 | an answer tonic ends, inside its bound and no shorter than declared, is handed over whole once polled often enough with nothing carried: all payload, its trailers, no failure, and complete if ordinary |
| `GrpcDownload.NothingAfterFailure` | crates/camber/src/http/grpc_handoff.rs:254-285 | once a failure is found no data and no trailers leave, in any continuation |
| `GrpcDownload.TrailersStandAlone` | crates/camber/src/http/body.rs:148-187 | trailers that left are followed by a failure if and only if the head declared more than tonic's payload |
| `GrpcDownload.ShortAnswerFailsAfterTrailers` | crates/camber/src/http/body.rs:156-166 | one byte of five declared: the peer is handed the trailers and then an error |
| `CircuitBreaker.Build` | crates/camber/src/circuit_breaker.rs:206-225 | threshold and cooldown are at least one failure and one second, and unchanged when already so |
| `CircuitBreaker.AfterReads` | crates/camber/src/circuit_breaker.rs:79-177 | after any sequence of checks circuit, counter and timestamp are read off the probes alone: failures in a row, whether the last unwound, and when the last failure ended |
| `CircuitBreaker.NextProbes` | crates/camber/src/circuit_breaker.rs:120-141 | the next check calls the resource if and only if fewer than the threshold of failures stand in a row, or the cooldown since the last failure has passed, or the last probe unwound |
| `CircuitBreaker.UnwoundProbeStaysHalfOpen` | crates/camber/src/circuit_breaker.rs:143-155 | one failure at threshold one, an unwound probe after the cooldown, and the circuit is half open: the next check probes at any time |
| `CircuitBreaker.OpensAtThreshold` | crates/camber/src/circuit_breaker.rs:79-105 | a closed circuit opens exactly at the threshold-th failure in a row |
| `CircuitBreaker.ProbeDecides` | crates/camber/src/circuit_breaker.rs:143-155 | after the cooldown one probe closes the circuit or opens it afresh |
| `CircuitBreaker.CooldownIsKept` | crates/camber/src/circuit_breaker.rs:120-141 | in every sequence, a probe that leaves the circuit open is followed by the next probe no sooner than a cooldown later |
| `CircuitBreaker.HealthBreaker.HealthCheck` | crates/camber/src/circuit_breaker.rs:171-177 | a check of the breaker object is the specified step, and says whether the resource was called |
| `CircuitBreaker.HealthBreaker.CountFailure` | crates/camber/src/circuit_breaker.rs:79-105 | a failure counts up to the threshold and opens the circuit there |
| `CircuitBreaker.HealthBreaker.ProbeHalfOpen` | crates/camber/src/circuit_breaker.rs:143-155 | a half-open probe closes and resets, or opens with a fresh time |
| `BreakerRuns.CounterIsBounded` | crates/camber/src/circuit_breaker.rs:79-105 | under every interleaving of overlapping checks the counter never passes the threshold |
| `BreakerRuns.StepInv` | crates/camber/src/circuit_breaker.rs:79-177 | every load, store and compare-exchange of every caller keeps the invariant, and a recorded time is never lost |
| `BreakerRuns.ObservedOpenIsStamped` | crates/camber/src/circuit_breaker.rs:157-163 | a caller that observed the circuit open always reads a recorded time, however late it reads |
| `BreakerRuns.LoneCheckIsAtomic` | crates/camber/src/circuit_breaker.rs:79-177 | a check nobody interferes with is the sequential one: its atomic steps, run together, take the breaker exactly where one whole check would |
| `BreakerRuns.FailureIsCounted` | crates/camber/src/circuit_breaker.rs:79-105 | however checks overlap, a caller whose probe failed leaves only once that failure is counted or the count is full |
| `BreakerRuns.OneOfTwoProbes` | crates/camber/src/circuit_breaker.rs:120-141 | of two callers that found the cooldown over, one probes and the other leaves |

## Left out

- Tokio, Hyper, reqwest, rustls, instant-acme, and certificate and IPv6 text
  parsing are foreign. They appear as parameters or adversaries with the
  contracts their call sites rely on.
- Atomic operations are sequentially consistent; weaker memory orders are not
  modelled.
- Machine words are 64-bit. Task ids are assumed not to have wrapped, and
  breaker times to stay below the 64-bit sentinel.
- A `str` is its UTF-8 octets, one character each; there is no Unicode beyond
  ASCII case.
- Clocks are inputs: deadlines, idle intervals and lifetimes appear as facts a
  step finds ready. Progress is stated as steps that stay enabled and bring an end
  nearer; that a scheduler takes them is not modelled.
- Checkpoints, observers and other test seams, logging, telemetry and the text
  of errors.
- The in-place sort of the domain list is modelled on values, so the reuse of
  its buffer is not captured.
- Directory permissions, file ownership and the exact error kinds of the file
  system; a failed system call may leave any documented partial effect.
- Durability after success is stated where a directory can be synced; off unix that
  sync is skipped and still answers success.
- Disk faults other than crashes: a synced block is assumed to stay readable.
- What Cloudflare itself does with a request; a refusal is taken as its promise that
  nothing was written, and an id as the record it wrote.
- `GrpcRequestBody`, `TransferBody` and `BufferedBody` would only add easy
  members beside `Transfer` and `GuardedBody`.
- The pre-commit coordinator of gRPC heads, WebSocket upgrades and the rest of
  the proxy.
- Single-probe and fresh-cooldown claims for overlapping health checks: a caller
  that finds the circuit already half open probes too.
- Which of several carried facts a transfer commits: the source declares them
  unordered, so only that one of them is committed is stated.
- Configuration tables, CORS, compression, cookies, secrets, TLS setup, signals,
  metrics, macros, scaffolding and benchmarks.
