# Route publication and user lifecycle of openclaw-multi, verified

openclaw-multi gives each managed Linux user a gateway and lets the user's plugins publish callback
URLs through a Cloudflare tunnel. This project models how those routes come into being and go away,
and proves what stays true whatever fails on the way.

| file | what it models |
|---|---|
| `Text.dfy`, `Words.dfy` | trimming, splitting, decimal numerals, lexicographic order, white-space separated words |
| `State.dfy` | the state store: tables, constraints, statements, the `Store` object |
| `Identity.dfy` | user names, slugs, hostnames, route IDs and the ownership prefix |
| `Ingress.dfy` | the ingress configuration text: filter, order, printer, a parser, first-match lookup |
| `Tunnel.dfy` | publication: write, validate, signal, roll back |
| `Api.dfy` | the route service over store and tunnel |
| `Callbacks.dfy` | callback discovery, write-back, difference to the saved snapshot |
| `Watcher.dfy`, `WatcherService.dfy` | one synchronisation and its faults; the loops that perform it against a publishing service |
| `Reconcile.dfy`, `Readiness.dfy` | what a synchronisation does however it ends; exactly when it succeeds, and when it puts the table in step |
| `Configuration.dfy` | what a synchronisation leaves in the plugin configuration and in the saved snapshot |
| `Retry.dfy`, `Drift.dfy`, `Examples.dfy` | retries after aborts; changing configurations; runs in which the table falls out of step |
| `Debounce.dfy`, `Feedback.dfy`, `Echo.dfy` | the watcher's event loop; exactly when its own writes keep it going; a configuration under which successes do so for ever |
| `Ports.dfy` | gateway port allocation |
| `Users.dfy`, `Lifecycle.dfy` | adding, pausing, resuming, removing; what each keeps |
| `BackupFirst.dfy`, `Sequences.dfy` | the order of effects; the steps that earn each row, and exactly when an operation completes and what it leaves |
| `RouteChanges.dfy`, `Histories.dfy` | changes of the route service beside the user operations; what holds over all mixed histories |
| `Removal.dfy` | what the tunnel answers for after a user is removed |
| `Backup.dfy` | creating an encrypted backup |
| `Counterexamples.dfy` | inputs at which properties of users, routes and backups fail |
| `ShellQuote.dfy` | quoting against the POSIX.1-2017 Shell Command Language, sections 2.2.1, 2.2.2 and 2.3 |
| `Templates.dfy` | `${NAME}` substitution |
| `Wrap.dfy` | greedy line breaking |
| `Wizard.dfy` | the step-by-step wizard as a message-driven machine |

Commands, file writes, signals, the clock and the network are parameters: every lemma holds for every
way they can turn out, unless it says otherwise. Go's map iteration order is a parameter too.
Where an object changes its fields, the model has a class whose methods are proved equal to a function
of the old state, and the properties are proved about that function over all runs.

Where a property does not hold of the code, a lemma says exactly when it does, and another one gives an
input at which it fails:

- A faultless retry of an aborted synchronisation succeeds exactly when an uninterrupted one would have and
  no removed entry has lost its route by then (`Retry.RetryIsExact`); a lost route makes every further
  synchronisation fail (`Retry.StrandedForever`, reached by `Retry.DeletionThenFailureStrands`).
- From any reachable tables, with any snapshot and any configuration, a faultless synchronisation puts the
  table in step exactly from a ready start (`Readiness.FaultlessIsExact`, `Drift.TableFollowsConfiguration`).
  Otherwise it may leave a route that nothing tracks and nobody removes
  (`Examples.ChangedHintLeavesAnOrphan`, `Drift.OrphanForever`), report success while a wanted route is
  missing (`Examples.RevertedHintStaysMissing`), or report success while the wrong port is served
  (`Examples.MovedBackServesTheWrongPort`).
- Two callbacks whose plugins and hints have the same slugs share one route: the one published last
  decides its port (`Examples.SharedRouteFollowsTheOrder`), and removing one deletes the route of the other
  (`Drift.SharedRouteGoes`, `Examples.SharedRouteIsDeleted`).
- The watcher's own writes trigger it again. Without faults a synchronisation writes, and so causes the next
  one, exactly if all it has to delete is there and the callback it visits first can be published
  (`Feedback.GoesOnExactly`, `Feedback.QuietExactly`). A blocked one that publishes another callback first can
  go on failing for ever (`Feedback.SpinsForEver`; `Examples.StuckOccurs`).
- A plugin may name any configuration keys for its URL and port. A write leaves discovery as it was exactly if
  it does not change a port or a hint that discovery reads there (`Callbacks.WriteIsExact`); the default keys
  never do. Written over the port, the URL makes the callback disappear (`Callbacks.UrlOverThePort`). Written
  over the hint, it makes every synchronisation succeed, publish a longer hostname and trigger the next one,
  for ever (`Echo.SuccessNeverRests`). A success that overwrites nothing discovery reads is followed by at most
  one more (`Feedback.RestAfterSuccess`).
- Rejected bytes stay on disk, for the tunnel to load later, exactly after a publication that wrote a rejected
  candidate and did not restore an original (`Tunnel.SafetyIsExact`, `Tunnel.TunnelLoadsOnlyVettedBytes`):
  once a rollback write was lost (`Tunnel.LostRollbackLoadsRejectedBytes`), or, with no write lost, when the
  very first candidate is rejected and there is no original (`Tunnel.FirstCandidateLoadsRejectedBytes`).
- A publisher that commits and then fails can leave a paused user with an enabled gateway route, or an
  active one without (`Lifecycle.StepKeepsOrder`, `Users.AddFailureIsExact`;
  `Counterexamples.HalfOpenedUser`, `Counterexamples.HalfClosedUser`). The overlay API client is such a
  publisher; the publisher that only records routes in the store is not. Pausing a user left half open
  does not repair it (`Lifecycle.SuccessSettles`).
- The route service does not look at the status of a user (`RouteChanges.ChangeSettlesExactly`;
  `Counterexamples.ChangesAgainstThePause`, `Counterexamples.ChangesAgainstActivity`,
  `Counterexamples.EnablingAPausedUser`). A plugin route opened for a paused user that way stays answered for
  after the user is removed through the service, because deleting the user's row publishes nothing
  (`Removal.RemovedUserAnswers`; `Counterexamples.PausedUserLeavesARoute`).
- A backup attempt in the same second as an earlier one, failing after encryption began, takes the
  earlier archive away under its row (`Backup.ArchivedIsExact`;
  `Counterexamples.RepeatedStampLosesAnArchive`).
- A master key that is there but cannot be read just then is replaced by a new one
  (`Backup.KeyIsReplacedExactly`; `Counterexamples.UnreadableKeyIsReplaced`).
- `docs/users.md` lines 59-62 promise that removal backs up before lingering is disabled; line 64 adds that
  active users are deactivated first. The code follows line 64: pausing an active user disables lingering
  before the backup is made, and that happens exactly for active users
  (`BackupFirst.RemovalIsBackupFirst`; `Counterexamples.LingerDisabledBeforeBackup`).

## Model

| member | source | states |
|---|---|---|
| Text.TrimSpaceReads | internal/api/service.go:143 | trimming takes exactly the white space at both ends |
| Text.LowerAlphabet | internal/api/service.go:143 | lower-casing maps the ASCII letters one by one and nothing else |
| Text.AtoiReads | internal/watcher/config.go:117 | a decimal numeral is read with either sign or none, and only within 64 bits |
| Text.LessIsLexicographic | internal/cloudflared/config.go:49-50 | the order of texts is decided by the first difference, a prefix coming first |
| State.PutUserAcceptsLegalTables | internal/state/migrations.go:34-43 | a user row is accepted exactly when the resulting tables meet the schema; a rejection changes nothing |
| State.PutRouteAcceptsLegalTables | internal/state/migrations.go:46-57 | a route row is accepted exactly when the resulting tables meet the schema (owner exists, hostname unique) |
| State.PutsAreExact | internal/state/store.go:106-409 | what is put can be read back, a user without a status as active; no other row changes; there is one admin |
| State.DeleteUserIsExact | internal/state/store.go:222-229 | deleting a user takes that row and the user's routes, no other route, no backup, no admin |
| State.DeletionIsLeastChange | internal/state/migrations.go:46-57 | the cascade takes no more routes than the schema demands |
| State.StatementKeepsIntegrity | internal/state/store.go:106-422 | every statement, rejected or not, keeps unique ports, unique hostnames, owned routes and at most one admin |
| State.HistoryKeepsIntegrity | internal/state/migrations.go:27-78 | the same after any sequence of statements |
| State.Store.ListUsers | internal/state/store.go:130-153 | exactly the stored users, each once, in the order of their names |
| State.Store.UpsertUser | internal/state/store.go:186-209 | new tables and error of the user statement; an empty status is stored as active |
| State.Store.RemoveUser | internal/state/store.go:223-229 | new tables and error of deleting a user, with the cascade |
| State.Store.UpsertRoute | internal/state/store.go:285-307 | new tables and error of the route statement |
| State.Store.RemoveRoute | internal/state/store.go:310-316 | new tables; a missing row is an error |
| State.Store.RemoveRoutesByUser | internal/state/store.go:319-325 | new tables; never an error for a missing user |
| State.Store.EnableRoutes | internal/state/store.go:328-334 | new tables: the flag of every route of the user |
| State.Store.UpsertBackup | internal/state/store.go:391-409 | new tables: the backup row, no foreign key |
| State.Store.PutAdmin | internal/state/store.go:108-127 | new tables: this admin and no other |
| State.Store.ListRoutes | internal/state/store.go:259-282 | every stored route exactly once, in the order of user, kind, plugin and hostname |
| Identity.ValidUsernameHasNoSeparators | internal/users/validate.go:11-36 | a valid name holds no colon, dot or slash and no outer white space |
| Identity.ValidUsernameIsExact | internal/users/validate.go:10-36 | a name is valid exactly if it has 1 to 32 of the allowed characters, no hyphen in front and is not reserved |
| Identity.SlugIsSlugged | internal/api/service.go:142-147 | a slug uses only a-z, 0-9 and inner hyphens |
| Identity.SlugIdempotent | internal/api/service.go:142-147 | slugging twice is slugging once; exactly the slugged texts stay as they are |
| Identity.SlugKeepsAlphanumerics | internal/api/service.go:142-147 | a slug keeps the lower-cased letters and digits in order |
| Identity.SlugJoins | internal/api/service.go:142-147 | between two slugged texts any run of other characters becomes one hyphen |
| Identity.HostnamesRead | internal/api/service.go:127-140 | the public names in full; there are none exactly without domain or subdomain |
| Identity.GatewayHostnamesDiffer | internal/users/routes.go:69-74 | two users share a gateway hostname exactly if they are the same |
| Identity.PluginHostnamesDiffer | internal/api/service.go:131-140 | a plugin hostname determines the hint and the slug of the user, and nothing more |
| Identity.GatewayIsNoPluginHostname | internal/api/service.go:127-140 | gateway and plugin hostnames never coincide |
| Identity.RouteIdsDecode | internal/api/service.go:73 | route IDs decode to user, plugin and hint |
| Identity.PluginRouteIdsDiffer | internal/api/service.go:73 | two plugin route IDs are equal exactly if all three parts are |
| Identity.PrefixCheckMeansOwnership | internal/api/service.go:90-93 | in a reachable store the prefix check accepts an existing ID exactly if it is a plugin route of that user |
| Ingress.SortOrders | internal/cloudflared/config.go:47-59 | the result of sorting routes with distinct IDs is in strict order |
| Ingress.SortKeepsElements | internal/cloudflared/config.go:47-59 | sorting neither adds nor drops a route |
| Ingress.OrderedUnique | internal/cloudflared/config.go:47-59 | a set of routes has one strictly ordered arrangement, so any correct sort gives this result |
| Ingress.RenderIsCanonical | internal/cloudflared/config.go:41-75 | the text depends only on the set of enabled routes, not on order or disabled routes |
| Ingress.RenderConfig | internal/cloudflared/config.go:29-76 | the filter, sort and print loops yield the specified text or the first defect |
| Ingress.SelectEnabled | internal/cloudflared/config.go:41-46 | the filter loop keeps exactly the enabled routes in order |
| Ingress.PrintRules | internal/cloudflared/config.go:60-75 | the print loop yields the rules or the first defect |
| Ingress.RenderRoundTrip | internal/cloudflared/config.go:15-76 | parsing the text gives back the tunnel, the credentials as configured or else those named after the tunnel, the enabled hostname-port pairs with ascending hostnames, and one catch-all, last |
| Ingress.RenderFailsExactly | internal/cloudflared/config.go:29-69 | rendering fails exactly without configuration or tunnel or for an enabled route with a blank hostname or no port, and names the first of these in order |
| Ingress.RenderedTableServes | internal/cloudflared/config.go:41-75 | first-match lookup sends each hostname of an enabled route to its port and every other to 404 |
| Tunnel.SafetyIsExact | internal/cloudflared/manager.go:70-115 | one publication, the first one included, keeps unvetted bytes out of the tunnel exactly if it stops early, is validated, can restore an original that is there, or writes bytes acceptable already |
| Tunnel.TunnelLoadsOnlyVettedBytes | internal/cloudflared/manager.go:75-115 | over all runs, from a machine without the file on, disk and tunnel hold only validated or initial bytes throughout exactly if every attempt is of that kind |
| Tunnel.WorkingRollbacksSuffice | internal/cloudflared/manager.go:91-111 | with a file to go back to, working reads and rollbacks of rejected candidates are enough |
| Tunnel.LostRollbackLoadsRejectedBytes | internal/cloudflared/manager.go:91-111 | a lost rollback write and a failed signal later make the tunnel load rejected bytes |
| Tunnel.FirstCandidateLoadsRejectedBytes | internal/cloudflared/manager.go:64-111 | so does a rejected first candidate, although every read, write and rollback works |
| Tunnel.AgreementIsExact | internal/cloudflared/manager.go:75-115 | disk and tunnel agree after a publication exactly under the stated outcomes |
| Tunnel.FirstAgreementIsExact | internal/cloudflared/manager.go:64-115 | without a file yet, disk and tunnel agree exactly if the candidate is written and loaded |
| Tunnel.RunsKeepAgreement | internal/cloudflared/manager.go:75-115 | over every run from agreement, disk and tunnel agree throughout exactly if each attempt stops before the write, renders what is loaded already, or settles |
| Tunnel.PublishOutcome | internal/cloudflared/manager.go:45-115 | success means validated, on disk and loaded; failure with a working rollback keeps the file; a rollback is reported only with an error |
| Tunnel.OriginalIsCopied | internal/cloudflared/manager.go:75-86 | a readable original is copied to the backup path, which the summary names, whatever happens later; no other file but the configuration changes |
| Tunnel.CredentialsAreChecked | internal/cloudflared/manager.go:58-69 | publication fails for missing credentials exactly if the check is on and the configured file, or the one named after the tunnel, is not there |
| Tunnel.ErrorIsExact | internal/cloudflared/manager.go:45-115 | the error names the first step that failed; a rollback is reported exactly if an original was written back after a rejection or a failed signal |
| Tunnel.Manager.PublishWithSummary | internal/cloudflared/manager.go:45-115 | the steps in the program's order end in the specified files, loaded bytes, summary and error |
| Api.ListingsRenderAlike | internal/api/service.go:27-36 | the order in which the database lists routes does not change the text |
| Api.ChangeKeepsSound | internal/api/service.go:38-108 | every operation keeps integrity and the naming of rows after their identity |
| Api.RunKeepsSound | internal/api/service.go:38-108 | the same after any history, with any faults |
| Api.SuccessMeansPublished | internal/api/service.go:27-108 | an operation without error leaves the file equal to the rendered store and the tunnel serving exactly the enabled routes |
| Api.AgreementAfterAnyHistory | internal/api/service.go:27-108 | the same for the next success after any history of failures |
| Api.GatewayUpsertIsAccepted | internal/api/service.go:38-58 | a gateway upsert is never refused by the unique hostname |
| Api.PluginUpsertRefusal | internal/api/service.go:60-81 | a plugin upsert is refused exactly when a user with the same slug already has the slugged hint |
| Api.GatewayUpsertIsExact | internal/api/service.go:38-58 | the row in full, with the port of the user unless one is given; the error without a user or a domain |
| Api.PluginUpsertIsExact | internal/api/service.go:60-81 | the row in full; the error without a user, slugs, a port or a domain, or for a hint that is held |
| Api.DeletionsAreExact | internal/api/service.go:83-98 | the one row that goes; a missing gateway is no error, a foreign or missing plugin route is |
| Api.SwitchIsExact | internal/api/service.go:100-108 | the flag of every route of the user and nothing else; an unknown user is an error |
| Api.RejectionChangesNothing | internal/api/service.go:38-108 | a rejected change leaves store, file and tunnel as they were |
| Api.DeletionsStayAtHome | internal/api/service.go:90-98 | after any history a successful plugin deletion removed one row, of that user |
| Api.RouteService.Publish | internal/api/service.go:27-36 | publishes the whole table or, without publisher, does nothing |
| Api.RouteService.UpsertGatewayRoute | internal/api/service.go:38-58 | new store, tunnel, route and error of the operation |
| Api.RouteService.UpsertPluginRoute | internal/api/service.go:60-81 | new store, tunnel, route and error of the operation |
| Api.RouteService.DeleteGatewayRoute | internal/api/service.go:83-88 | new store and tunnel; a missing route is no error |
| Api.RouteService.DeletePluginRoute | internal/api/service.go:90-98 | new store, tunnel and error, a missing route included |
| Api.RouteService.SetRoutesOn | internal/api/service.go:100-108 | new store, tunnel and error of the operation |
| Callbacks.DiscoverCallbacks | internal/watcher/config.go:62-108 | lists every wanted callback once, or reports a port out of range, or that there are none |
| Callbacks.DiscoveryReads | internal/watcher/config.go:79-137 | which callback a plugin asks for: the first of three places that names a port decides, then hint and keys with their defaults; none without a port, an error exactly outside 1 to 65535 |
| Callbacks.WriteIsExact | internal/watcher/openclaw.go:23-38 | one write leaves discovery as it was exactly if it does not change a port or a hint that discovery reads from there |
| Callbacks.WriteBackIsExact | internal/watcher/openclaw.go:23-38 | a write-back, as far as it gets, leaves discovery as it was after each of its writes exactly if none of them does |
| Callbacks.WriteBackChangesNothing | internal/watcher/openclaw.go:23-38 | with keys that name no port or hint setting, the plugin's own port excepted, it always does, fully or in part |
| Callbacks.DefaultKeysAreHarmless | internal/watcher/config.go:62-108 | the default keys of every plugin, with or without a dot in its ID, are of that kind |
| Callbacks.UrlOverThePort | internal/watcher/openclaw.go:23-38 | a plugin that has its URL written over its port asks for nothing afterwards |
| Callbacks.CurrentIsUnique | internal/watcher/snapshot.go:65-79 | without NUL in plugin IDs the keyed map does not depend on discovery order |
| Callbacks.DiffSnapshot | internal/watcher/snapshot.go:75-95 | the three parts enumerate exactly the stale, the removed and the unchanged keys |
| Watcher.WantedIsAccepted | internal/api/service.go:60-81 | a callback is accepted exactly if it has slugs and a port and no other route holds its hint, so a hostname freed by a deletion is accepted |
| Reconcile.SyncStaysBetween | internal/watcher/service.go:76-106 | at every end, from any start, each row is an old one or one of a stale callback, rows vanish only with removed entries, rows of others are untouched, and the snapshot moves only on success |
| Reconcile.SyncTouches | internal/watcher/service.go:77-106 | however it ends, a synchronisation touches only rows of removed entries and of stale callbacks |
| Reconcile.SuccessIsExact | internal/watcher/service.go:76-106 | a synchronisation succeeds only if, and without faults exactly if, each removed entry has a route of its own to delete, each stale callback has slugs and a port, no two of them clash and no route that stays holds a hint of theirs |
| Reconcile.HeldHintBlocks | internal/watcher/service.go:86-90 | while another route holds the hint of a callback to publish, no synchronisation succeeds |
| Reconcile.EqualHintsBlock | internal/watcher/service.go:86-90 | with two callbacks of different routes to publish under one slugged hint, no synchronisation succeeds |
| Reconcile.SuccessRow | internal/watcher/service.go:77-105 | after a success each row wanted anew is that of a callback that wants it, each row only removed is gone, every other one is as before |
| Reconcile.SuccessIsUnique | internal/watcher/service.go:76-106 | two successes from tables that differ only where a synchronisation writes end with the same tables, in any orders and with any faults, unless callbacks that share a route ask for different ports |
| Readiness.FaultlessIsExact | internal/watcher/service.go:76-106 | from any reachable tables, with any snapshot and configuration, a faultless synchronisation succeeds with the table in step if and only if every removed entry has its own route, every plugin row is removed or wanted, every unchanged callback has its row and port and keeps it, stale callbacks are publishable, callbacks sharing a route agree, and hints neither clash nor are held by others |
| Readiness.SuccessSavesTheWanted | internal/watcher/service.go:94-106 | one that succeeds, with any faults and any table, saves exactly the wanted callbacks |
| Readiness.SyncReconciles | internal/watcher/service.go:76-106 | from a ready start every success serves exactly the wanted callbacks, leaves the rows of others and saves a snapshot that mirrors the table, every entry synced; without faults it succeeds |
| Readiness.MirrorIsReady | internal/watcher/service.go:72-106 | a mirroring snapshot whose entries name different routes is a ready start exactly for the configurations that can be served beside the rows of others |
| Readiness.InStepMirrors | internal/watcher/service.go:94-106 | a table in step is mirrored by the saved snapshot, whose entries name different routes exactly if no callbacks share one |
| Readiness.SyncKeepsMirror | internal/watcher/service.go:76-106 | from a mirroring snapshot every success ends with a mirroring one |
| Configuration.WriteSets | internal/watcher/openclaw.go:23-38 | a write sets exactly the setting its path names, of a plugin that is there |
| Configuration.LoopConfigures | internal/watcher/service.go:86-93 | the upsert loop makes the first of its planned writes, URL then port for each callback, and all of them if it gets through |
| Configuration.SyncConfigures | internal/watcher/service.go:76-106 | at every end of a synchronisation each setting holds the value of the last write made that names it |
| Configuration.OthersStay | internal/watcher/service.go:86-93 | at every end a setting that no key names, and what plugins ask for, is as before |
| Configuration.SuccessConfigures | internal/watcher/service.go:86-93 | after a success the setting named by a callback's URL key is its https URL, and the one named by its port key reads back its port, unless a later write names the same setting |
| Configuration.SuccessSaves | internal/watcher/service.go:77-106 | a success saves an entry in full for each published callback, drops removed entries that name a route and keeps all others, removed ones without a route included |
| Drift.TableFollowsConfiguration | internal/watcher/service.go:60-106 | after any synchronisations on any configurations with any faults, a faultless one puts the table in step if and only if it starts ready; rows of others never change |
| Drift.TurnsSaveTheWanted | internal/watcher/service.go:94-106 | after any synchronisations with any faults, the next success saves exactly the callbacks of its configuration |
| Drift.InStepIsReadyForAnything | internal/watcher/service.go:76-106 | after a success from a ready start, unless callbacks share a route, the next start is ready exactly for the configurations that can be served |
| Drift.OrphanStays | internal/watcher/snapshot.go:75-95 | a row no entry names and no callback wants survives a synchronisation unchanged, in any order, under any faults |
| Drift.OrphanForever | internal/watcher/snapshot.go:75-95 | the same through any number of synchronisations on configurations that do not want it |
| Drift.DisplacedStays | internal/watcher/snapshot.go:81-87 | a row that needs no publication, as the snapshot has it, and whose route nothing else shares is never touched, even if it is missing or wrong |
| Drift.SharedRouteGoes | internal/watcher/service.go:77-85 | removing a callback deletes the route it shares with one that needs no publication, and the snapshot goes on showing it |
| Examples.StartsExist | internal/watcher/service.go:76-106 | the hypotheses of these theorems are met by a state with a route to delete and one to publish |
| Examples.ChangedHintLeavesAnOrphan | internal/watcher/service.go:86-106 | a lost reply and a changed hint leave an enabled route that nothing removes and that blocks another plugin |
| Examples.PublishedStarts | internal/watcher/service.go:76-106 | one faultless synchronisation of a new user reaches the start of the next two |
| Examples.RevertedHintStaysMissing | internal/watcher/service.go:77-106 | a failed exchange of hints taken back leaves a success without the wanted route |
| Examples.MovedBackServesTheWrongPort | internal/watcher/snapshot.go:81-87 | a lost update taken back leaves a success that serves the wrong port |
| Examples.SharedRouteFollowsTheOrder | internal/watcher/service.go:86-90 | two callbacks that share a route and ask for different ports: both orders succeed and serve different ports |
| Examples.SharedRouteIsDeleted | internal/watcher/service.go:77-85 | two that agree are published; when one goes, the route of the other is deleted and every further success leaves it missing |
| Retry.StrandedStays | internal/watcher/service.go:77-85 | a removed entry whose route is gone makes every synchronisation fail and stay so |
| Retry.StrandedForever | internal/watcher/service.go:77-85 | the same for any number of further synchronisations |
| Retry.RetryIsExact | internal/watcher/service.go:77-106 | from any reachable start, a faultless retry of an aborted synchronisation succeeds exactly when an uninterrupted one would have and no entry is stranded, and then saves the same snapshot and, unless callbacks that share a route ask for different ports, ends with the same tables |
| Retry.RetryOfUpsertsIsSafe | internal/watcher/service.go:86-106 | with nothing to delete, the retry of every abort succeeds exactly when an uninterrupted one would have, and then ends like it in the same sense |
| Retry.DeletionThenFailureStrands | internal/watcher/service.go:77-89 | with something to delete and something to publish, a failed first upsert strands an entry |
| Retry.SyncKeepsWanted | internal/watcher/service.go:86-105 | with harmless keys a synchronisation, however it ends, overwrites nothing discovery reads and leaves it with the same result and harmless keys |
| Retry.SettledAfterSync | internal/watcher/snapshot.go:81-93 | after any success that overwrites nothing discovery reads, the synchronisation caused by the watcher's own write calls nothing and changes nothing |
| Retry.LoopIsExact | internal/watcher/service.go:86-93 | the upsert loop leaves discovery as it was after each of its writes exactly if none of them overwrites what discovery reads at that moment |
| Feedback.NothingWritten | internal/watcher/service.go:86-93 | an upsert loop that wrote no field leaves the configuration as it was |
| Feedback.HarmlessKeysSpare | internal/watcher/openclaw.go:23-38 | with harmless keys no write of any chain of synchronisations, each on what discovery finds then, overwrites what discovery reads |
| Feedback.WritesExactly | internal/watcher/service.go:77-93 | from any reachable tables a synchronisation without faults writes to the configuration exactly if each removed entry has its own route to delete and the callback visited first has slugs, a port and a hint that no route staying holds |
| Feedback.GoesOnExactly | internal/watcher/service.go:43-107 | over any chain without faults, each on what discovery finds in the configuration as rewritten so far, every synchronisation causes the next exactly as long as that holds |
| Feedback.RestAfterSuccess | internal/watcher/service.go:43-107 | after a success, with whatever faults, that overwrites nothing discovery reads, at most one more follows from the watcher's own writes |
| Echo.SuccessNeverRests | internal/watcher/openclaw.go:23-38 | with the URL written over the hint, synchronisations without faults, each on what discovery finds then, all succeed and each causes the next, for any number |
| Feedback.StuckStays | internal/watcher/service.go:77-93 | while something blocks, a synchronisation without faults fails, is stuck afterwards, and writes exactly under that condition |
| Feedback.StuckNeverRests | internal/watcher/service.go:43-107 | while stuck, if no write overwrites what discovery reads, none of a chain succeeds, and each causes the next exactly as long as that holds |
| Feedback.SpinsForEver | internal/watcher/service.go:86-106 | with harmless keys and nothing to delete, a stuck round that opens can be taken for ever, failing and writing each time |
| Feedback.SameFirstNeverRests | internal/watcher/service.go:86-106 | with nothing to delete it holds for ever if the same callback is always visited first |
| Feedback.StrandedWritesNothing | internal/watcher/service.go:77-85 | once an entry is stranded, no synchronisation writes anything |
| Feedback.WritingAndFailingStrands | internal/watcher/service.go:77-106 | one that wrote and failed, with whatever faults, strands each removed entry whose route no stale callback shares |
| Feedback.RestAfterDeletions | internal/watcher/service.go:43-107 | so with such an entry at most one more synchronisation follows a failure |
| Feedback.LoopFollowsCascade | internal/watcher/fsnotify.go:74-101 | the event loop, driven by nothing but the watcher's writes, starts exactly the synchronisations of such a chain |
| Feedback.QuietExactly | internal/watcher/fsnotify.go:74-101 | all this in the event loop: how many synchronisations it starts after one that wrote nothing, succeeded, failed or is stuck |
| Examples.StuckOccurs | internal/watcher/service.go:86-106 | a lost reply and two changed plugins lead to a state in which every synchronisation fails and causes the next, for any number |
| WatcherService.RemoteCallsAreServiceSteps | internal/api/client.go:35-46 | each remote call is one operation of the route service, a failed publication being a change without success |
| WatcherService.Service.Sync | internal/watcher/service.go:43-107 | nothing happens if an input cannot be read; otherwise the loops do exactly the specified synchronisation for some order, failed publications being faults; after a success that made a call, store, file and tunnel agree |
| WatcherService.WantedCallbacksAreServed | internal/watcher/service.go:86-106 | after any success, once published, the tunnel sends the hostname of every callback published anew to its port, unless another one shares the route and asks for another port |
| WatcherService.InStepIsServed | internal/watcher/service.go:86-106 | when the table is in step and published, the tunnel answers for the hostname of each wanted callback with its port, exactly if its route is enabled |
| WatcherService.RowAnswers | internal/cloudflared/config.go:41-75 | the loaded configuration answers for the hostname of a row exactly if the row is enabled, with its port |
| WatcherService.RouteClient.UpsertPluginRoute | internal/api/client.go:35-42 | one upsert of the service and its publication, or a call that never arrived; a success leaves all in agreement |
| WatcherService.RouteClient.DeletePluginRoute | internal/api/client.go:44-46 | one deletion of the service and its publication, or a call that never arrived; a success leaves all in agreement |
| WatcherService.Service.DeleteRemoved | internal/watcher/service.go:77-85 | the delete loop, entry by entry, until a call fails |
| WatcherService.Service.PublishStale | internal/watcher/service.go:86-105 | the upsert loop, entry by entry, until a call or a write fails |
| WatcherService.Service.WriteBack | internal/watcher/openclaw.go:23-38 | two writes in order, stopping at the first failure |
| Debounce.EveryRunKeepsInvariant | internal/watcher/fsnotify.go:74-101 | pending exactly while the timer is armed or fired; every configuration event is followed by a synchronisation unless one is due; synchronisations wait for a quiet interval and number at most one plus events |
| Debounce.QuietSourceIsServed | internal/watcher/fsnotify.go:74-101 | whatever came before, once the interval passes and the tick is taken, every event has been served |
| Debounce.LoopEndsExactly | internal/watcher/fsnotify.go:62-102 | a failed first synchronisation or a cancellation ends the loop with an error, a closed channel without, nothing else; until then exactly the events about the configuration file count |
| Debounce.BaseIsName | internal/watcher/fsnotify.go:83 | whatever the directory and the slashes at the end, the last names of paths are compared |
| Debounce.ErrorsAreReported | internal/watcher/fsnotify.go:87-99 | errors of the source and of later synchronisations are reported and the loop goes on |
| Debounce.RunLoop | internal/watcher/fsnotify.go:62-102 | the loop produces exactly the specified log and exit |
| Ports.AllocationIsTight | internal/users/ports.go:14-38 | allocation ends at the lowest free rung, no higher than the number of distinct used ports, hence within range if that rung is; it fails exactly for a bad range |
| Ports.Pigeonhole | internal/users/ports.go:27-37 | no more consecutive rungs are taken than there are used ports |
| Ports.AllocateGatewayPort | internal/users/ports.go:14-38 | the unbounded search terminates and returns that port |
| Users.ChosenPortIsFree | internal/users/manager.go:115-125 | the unique port never rejects an added user |
| Users.OpeningIsAccepted | internal/users/routes.go:30-50 | saving a valid user keeps the tables sound and its gateway row is never refused |
| Users.AddedTables | internal/users/manager.go:87-229 | the tables after adding in full, for every fault |
| Users.AddFailureIsExact | internal/users/manager.go:217-225 | a failed add leaves the tables as they were exactly unless the publisher committed a new gateway row for a known user |
| Users.RoutePublisher.Enable | internal/users/routes.go:30-50 | new tables and success of opening the gateway |
| Users.RoutePublisher.Disable | internal/users/routes.go:53-58 | new tables and success of closing all routes |
| Users.RoutePublisher.Delete | internal/users/routes.go:61-66 | new tables and success of dropping routes |
| Users.Manager.Add | internal/users/manager.go:87-229 | the sequence ends in the specified tables, trace and error |
| Users.Manager.Deactivate | internal/users/manager.go:232-266 | the sequence ends in the specified tables, trace and error |
| Users.Manager.Activate | internal/users/manager.go:269-285 | adds the stored user again |
| Users.Manager.Remove | internal/users/manager.go:288-334 | the sequence ends in the specified tables, files, trace and error |
| Lifecycle.StepKeepsOrder | internal/users/manager.go:87-334 | from any sound tables every operation keeps them sound and touches one user; that user stays settled, paused without and active with an enabled route, exactly unless the publisher fails halfway |
| Lifecycle.SuccessSettles | internal/users/manager.go:87-334 | a completed operation settles its user whatever was wrong before, except that pausing a paused user does nothing |
| Lifecycle.AddKeepsTables | internal/users/manager.go:87-229 | adding keeps tables sound, touches one user, keeps every port and gives a new user the chosen one |
| Lifecycle.RemoveKeepsTables | internal/users/manager.go:288-334 | removing keeps tables sound, touches one user and keeps every port; a completed one leaves no such user |
| RouteChanges.ChangeSettlesExactly | internal/api/service.go:38-108 | a change of the route service leaves everybody settled exactly if it fits the status of its user, for each of the six operations |
| Histories.RunKeepsKept | internal/users/manager.go:87-334 | over every history of user operations and route changes, with any failures, tables stay sound and ports on rungs below the peak number of users |
| Histories.SettledExactly | internal/users/manager.go:232-334 | everybody is settled at every moment of a history exactly if every piece of work fits |
| Histories.RunKeepsArchives | internal/backup/manager.go:94-168 | over every history, with any failures, every backup row matches its file throughout exactly if every backup is safe where it is made |
| Histories.DistinctBackupsAreSafe | internal/backup/manager.go:122-126 | they all are if no two removals of the same user share a second |
| Histories.AgreementAfterAnyWork | internal/api/service.go:27-108 | after any such history the next route operation without error brings store, file and tunnel into agreement |
| Histories.HistoriesFromEmpty | internal/users/manager.go:87-334 | from an empty store, with any failures: sound tables, rungs below the peak number of users, disjoint windows of 20 ports; archives matching their rows exactly if every backup is safe, as when no two removals of a user share a second; settled users exactly if all work fits, as with a publisher that changes nothing when it fails |
| Histories.PortsNeverChange | internal/users/manager.go:115-118 | a user keeps its port until removed, whatever fails |
| Lifecycle.WindowsAreDisjoint | internal/users/ports.go:18-37 | the windows of 20 ports of two users are disjoint |
| Lifecycle.StepKeepsLadder | internal/users/manager.go:110-125 | no operation moves a user's port, and ports stay below the largest number of users so far |
| Lifecycle.AddIsIdempotent | docs/users.md:20-23 | adding a user again changes nothing in the tables, as documented |
| Lifecycle.ActivateOpensOnlyTheGateway | internal/users/manager.go:269-285 | resuming leaves every plugin route as it was |
| Histories.RemovalLeavesABackup | internal/users/manager.go:288-334 | after removal the user and its routes are gone, its port is free, others are untouched and a backup row matches its file |
| Removal.RemovedUserAnswers | internal/users/manager.go:305-334 | after a removal through the service the tunnel answers for a hostname of the user exactly if it was a plugin route still enabled while the user was paused |
| Histories.StepKeepsArchives | internal/backup/manager.go:94-168 | an operation keeps every backup row matching its file exactly if the backup it makes, if any, can complete, stops before encryption, uses a new ID or leaves an archive like the earlier one; no other row is touched |
| BackupFirst.RemovalIsBackupFirst | internal/users/manager.go:288-334 | on every trace: pause exactly if active, then backup, then destruction, each only after the one before succeeded; lingering is disabled before the backup exactly for active users |
| BackupFirst.EveryRunIsBackupFirst | internal/users/manager.go:305-334 | in every run, route changes in between included, each destructive effect follows a successful backup of that user in the same removal |
| Sequences.EveryRunIsEarned | internal/users/manager.go:87-334 | in every run a user is saved as active only directly after all commands of the same operation passed, the eight readiness checks last; as paused only after services stopped, lingering was disabled and routes closed; and deleted only after routes, installation, lingering and account went |
| Sequences.AddIsEarned | internal/users/manager.go:87-229 | the same for one add, which ends with the saved row and the opened gateway if it completes |
| Sequences.RemoveIsEarned | internal/users/manager.go:288-334 | a completed removal ends with exactly routes dropped, uninstall, lingering disabled, account deleted, row deleted |
| Sequences.AddCompletesExactly | internal/users/manager.go:87-229 | adding completes exactly with a valid name, a domain, a port, randomness, every command passing and a working publisher; before the publisher nothing changes |
| Sequences.AddedIsExact | internal/users/manager.go:203-229 | the saved user and its gateway row in full; nothing else differs |
| Sequences.ResumeCompletesExactly | internal/users/manager.go:269-285 | resuming completes exactly if the user is there and adding it again completes |
| Sequences.PauseCompletesExactly | internal/users/manager.go:232-266 | pausing completes exactly for a paused user, who is left alone, or if both commands and the publisher work; the tables then in full |
| Sequences.RemoveCompletesExactly | internal/users/manager.go:288-334 | removal completes exactly if an active user can be paused, the backup succeeds, the routes go and none of the three destructive commands fails; any failure leaves the user known |
| Sequences.DroppedRoutes | internal/users/routes.go:61-66 | the recorder drops all routes of the user, the client only the gateway, and neither any other |
| Backup.ReverseLines | internal/backup/manager.go:331-337 | swapping in place reverses the lines |
| Backup.LastWord | internal/backup/manager.go:316-329 | the last field of the last line that is not blank is the last word of the whole output |
| Backup.ParseBackupPath | internal/backup/manager.go:316-329 | the last word of the output, or an error exactly if there is none |
| Backup.IdsDiffer | internal/backup/manager.go:122-124 | backup IDs determine user and time stamp |
| Backup.PathsDiffer | internal/backup/manager.go:125-126 | archive paths determine user and time stamp |
| Backup.SuccessMatchesItsFile | internal/backup/manager.go:143-167 | a success records one row whose size and digest are those of the file it names and touches nothing else |
| Backup.FailureIsExact | internal/backup/manager.go:127-165 | a failure changes no row, and no archive exactly under the stated condition |
| Backup.KeyIsReplacedExactly | internal/backup/manager.go:295-314 | the master key is replaced exactly if missing or unreadable, and no archive is made with a blank key |
| Backup.CompletesExactly | internal/backup/manager.go:132-165 | creation succeeds exactly if preparation does, every later step works and there is a file to read back |
| Backup.CreationIsExact | internal/backup/manager.go:94-168 | the result for every input: the error of the first step that fails, or the row in full, marked as encrypted |
| Backup.ArchivedIsExact | internal/backup/manager.go:94-168 | every row keeps matching its file exactly if the attempt can complete, stops before encryption, uses a new stamp or leaves an archive like the earlier one |
| Counterexamples.HalfOpenedUser | internal/users/manager.go:217-225 | resuming through a publisher that commits and then fails leaves a paused user with an enabled gateway |
| Counterexamples.HalfClosedUser | internal/users/manager.go:254-263 | pausing through such a publisher leaves an active user without an enabled route |
| Counterexamples.ChangesAgainstThePause | internal/api/service.go:38-81 | upserts that succeed for a paused user |
| Counterexamples.PausedUserLeavesARoute | internal/api/service.go:60-81 | an accepted upsert opens such a route for a paused user |
| Counterexamples.ChangesAgainstActivity | internal/api/service.go:38-108 | an upsert, a deletion and a switch that succeed and take an active user's gateway away |
| Counterexamples.EnablingAPausedUser | internal/api/service.go:100-108 | enabling the routes of a paused user succeeds |
| Counterexamples.RepeatedStampLosesAnArchive | internal/backup/manager.go:132-142 | a second attempt with the same stamp loses the first archive under its row |
| Counterexamples.UnreadableKeyIsReplaced | internal/backup/manager.go:295-314 | an unreadable master key is replaced |
| Counterexamples.LingerDisabledBeforeBackup | internal/users/manager.go:246-306 | removing an active user disables lingering before the backup is made |
| Backup.Manager.EnsureMasterKey | internal/backup/manager.go:295-314 | a readable key must not be blank; an unreadable one is generated |
| Backup.Manager.Create | internal/backup/manager.go:94-168 | the steps end in the specified rows, files and result |
| ShellQuote.QuotedIsOneWord | internal/users/manager.go:596-598 | every text survives quoting as a single word |
| ShellQuote.QuotedListRoundTrips | internal/users/manager.go:596-598 | every list of words survives quoting and joining with blanks |
| ShellQuote.TenantFileScriptReads | internal/users/manager.go:478-485 | for every directory, path and mode the shell reads exactly these four commands |
| ShellQuote.OnboardTrapReads | internal/users/manager.go:493-519 | for every valid user the exit trap is one action that names exactly the environment file |
| Templates.RenderIsSubstitution | internal/config/templates.go:20-42 | rendering is substitution on the leftmost parse; it fails exactly on, and with, the first unknown token |
| Templates.RenderSucceedsExactly | internal/config/templates.go:24-42 | success depends only on which names are defined, never on a value |
| Templates.StartsTokenIsSomeToken | internal/config/templates.go:20 | a position matches exactly if some token with a name without closing brace starts there |
| Templates.ParseIsLeftmost | internal/config/templates.go:20 | every text has a leftmost parse |
| Templates.LeftmostIsUnique | internal/config/templates.go:20 | no text has two |
| Wrap.WrapText | internal/tui/wrap.go:31-51 | keeps the words in order, each line fits the width, at least 20, or is one word, takes as many words as it can, and no such layout has fewer lines |
| Wrap.GreedyIsOptimal | internal/tui/wrap.go:39-50 | greedy lines are a layout and no layout of the words is shorter |
| Wizard.EveryRunKeepsInvariant | internal/tui/wizard/wizard.go:71-152 | over all interleavings: running with one result outstanding, waiting for a key, or finished; outcomes, states and log match; indexing in bounds |
| Wizard.RunsFromLaunch | internal/tui/wizard/wizard.go:64-152 | outcomes are the first steps in order, no step starts before its predecessors ended, the end is reported once with all outcomes |
| Wizard.KeysAnswer | internal/tui/wizard/wizard.go:120-149 | only while the wizard waits: R runs the step again, S skips it, A and Ctrl+C quit with the model as it is; any other key does nothing |
| Wizard.ResultsAnswer | internal/tui/wizard/wizard.go:97-113 | a failure is shown and waits for a key; a success starts the next step or reports all outcomes |
| Wizard.StaleResultsAreIgnored | internal/tui/wizard/wizard.go:98-100 | a result of a step that is not the current one changes nothing |
| Wizard.DisplayFollows | internal/tui/wizard/wizard.go:91-152 | after every run the last size, as many spinner steps as ticks, and no error text unless a key is awaited |
| Wizard.WizardModel.Init | internal/tui/wizard/wizard.go:71-76 | starts the first step, or reports the end if there is none |
| Wizard.WizardModel.Update | internal/tui/wizard/wizard.go:91-152 | new model and command of the machine |

## Left out

- The HTTP server and client, the UNIX socket and peer credentials; the route service starts behind them.
- SQL text, transactions, time stamps of rows, last-seen caching and the port pool table; the CHECK constraints on kind, status and flags are types here, except that an unset status is refused.
- JSON and YAML: configurations and snapshots start decoded. The `enabled` field of a callback, which discovery does not read, is not part of the model.
- Text beyond ASCII and Latin-1 white space; lower-casing in slugs is that of ASCII.
- Interleaving of concurrent handlers: the code takes no lock, so each route operation is one atomic step.
- Audit logging, the terminal views, doctor, hardening, network and preflight command sequences: no guarantee above depends on them.
- Restoring a backup and installing its timer: linear command lists whose outcome the real filesystem decides.
- `sort.Slice` is modelled by a sorting function; the order is strict, so its result is the only one.
- Listing the routes of a user; deleting a backup row and setting a status are statements without a method of the store object.
- Callbacks.WriteIsExact: of the paths a configuration command may be given, only those to a plugin's own settings are followed; any other is taken to reach nothing that discovery reads, and a failing command to have no effect.
- Retry.SettledAfterSync: assumes plugin IDs without NUL.
- Feedback.RestAfterSuccess: assumes plugin IDs without NUL.
- Histories.RunKeepsArchives: time stamps have the program's format, and the master key lies outside the backup root.
- Tunnel.Manager.PublishWithSummary: a failed file write is taken to change nothing; one that leaves part of the text behind is not part of the model.
- Users.AddedTables: store statements other than rejected rows do not fail; the publication that the route service performs behind the client is not part of the user operations. `Histories.AgreementAfterAnyWork` therefore holds for any state of the tunnel.
- Users.Manager.Add: the commands between two store effects are run from a list; their scripts, except for quoting, are not part of the model. A command fails or passes; an existing account is the one tolerated failure.
- Histories.RunKeepsKept: the overlay configuration is fixed during a history.
- Ports.AllocateGatewayPort: integers are unbounded; the 64-bit wrap-around would need a start and a step near the limit of the type.
- Backup.Manager.Create: paths are joined as text, which is what path cleaning yields for a clean root and a valid user name; encryption and digest are parameters.
- ShellQuote.QuotedListRoundTrips: reads words, `>` and line ends; any text that needs another section of the standard, such as an expansion, is rejected by the reader. A NUL cannot reach a shell and is treated like any character.
- Debounce.RunLoop: setting the timer discards a waiting tick, as it does from Go 1.23 on.
- Wizard.WizardModel.Update: a message that would index past the steps stops the program; `Wizard.EveryRunKeepsInvariant` shows that no run contains one. After quitting, further messages are still allowed.
- The second wrapping function, in the wizard, which counts bytes, and the indentation of wrapped status lines repeat the algorithm of `Wrap`.
- Guards for missing dependencies at the start of each operation.
