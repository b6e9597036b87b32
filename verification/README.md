# AppCrane: proved models of its stateful protocols

AppCrane hosts other people's apps: it keeps their schema and tenants' files apart, signs users in on
app hosts, publishes raw ports, streams agent tasks, and updates itself. The parts where a wrong step
is expensive are state machines spread over request handlers, callbacks and reboots. This project
models them in Dafny, one module a component, and proves what each promises over every input, every
interleaving or every run.

| module | models |
|---|---|
| `TenantPath` | org slugs, POSIX `join`/`normalize`/`basename`, tenant directories and files |
| `Identity` | the v1 and v2 signing payloads, issuing and verifying identity headers |
| `TenantMigration` | many openers racing to upgrade one tenant file under SQLite's IMMEDIATE lock |
| `StatementCache` | the LRU cache of prepared statements, against compiling every time |
| `Migrations` | the migration runner, cut off at any write, boot after boot |
| `Ingress` | ingress changes, the port registry, running containers, the audit trail |
| `Members` | replacing an app's member list |
| `Handoff` | one-time sign-in codes, app sessions, logout, purges, time |
| `A2aStream` | cursor-driven event streams and the open-stream counters |
| `RateLimit` | the API limiter with its sweeper, and the per-agent budget |
| `Sse` | the event-stream reader, against what the A2A stream writes |
| `Selector` | the element picker's selectors, against `querySelector` |
| `SelfUpdate` | the pending-update record, rollbacks and the boot reconcile |
| `Text` | joining, splitting and filtering strings |

Handlers that change state are class methods (`TenantDb`, `Database`, `Store`, `Platform`,
`Membership`, `HandoffDb`, `StreamServer`, `ApiRateLimit`, `AgentBudget`, `Host`). Each is proved equal
to a step function of its module, and the safety results are proved about those step functions over
all runs. A single JavaScript turn is one step; anything behind an `await`, another process or a crash
is a separate step. Verify everything with `dafny verify dfyconfig.toml`.

## Where the code does not keep the promise

These promises hold only under a condition. Lemmas state the condition, show states that break it, or both.

- Bound ports stay reserved: a step keeps this if and only if `Ingress.Safe` holds before it
  (`StepKeepsBoundIffSafe`). Dropping a sandbox port (`sandbox_public_port: null`) frees a number that
  the running sandbox container still binds, and another app can claim and bind it
  (`DroppedSandboxPortIsHandedOut`). A flip to `http` while a recreation is under way makes the release
  free the number the new container was just started with (`FlipDuringRecreateFreesTheBoundPort`).
  Moving a number whose container runs without a `live` deployment frees it too.
- A number that is still draining passes the allocator's own check for the environment that owns it and
  is then refused by the registry's primary key, so a move cannot be taken back before the container is
  recreated (`NamedPortGrantedIff`).
- Row rules and the audit trail: the handler can wait (the custom-domain import) between reading the
  row and writing. An accepted request keeps the rules if and only if its plan fits the row as it is
  then, and the trail if and only if the row it read reports what the app's last entry ended with
  (`PutKeepsRowsIff`, `PutKeepsTrailIff`, `RunsKeepRowsAndTrailIff`). A plan made on the current row
  always does (`CurrentPlansFit`); one on an outdated row can publish the control plane
  (`StalePlanPublishesControlPlane`).
- A sandbox port named `null` in the same request as a flip to `http` is accepted and ignored
  (`AcceptedPutDoesWhatWasAsked`).
- Tenant upgrades run once for openers that share a list. Openers of different releases break this at
  exactly one step, a commit whose locked version is past the opener's list, and a step can then run
  twice (`StepSoundIff`, `RunSoundIff`, `OlderReleaseRepeatsAStep`).
- Boots recover from a cut in a no-transaction file if and only if that file, run again from anything
  its own partial runs can leave, gives the clean schema (`RecoveryIff`). None of the eleven shipped
  files that carry the mark does. Ten start with an unguarded table rebuild: cut off between its CREATE
  and its RENAME, every later boot throws at the CREATE and changes nothing (`RebuildRecoversIff`,
  `RebuildGetsStuck`). 077 guards its CREATE and INSERT and is stuck only between DROP and RENAME. 083
  run to its end but not recorded throws at its ADD COLUMN for good (`AddColumnGetsStuck`). The applied
  prefix and the pending list survive all of this (`BootsKeepPrefix`).
- The statement cache asks the engine what compiling would at every operation except queries on a handle
  that is off (`CacheShowsIffOff`). A mode switch on a prepared handle puts that handle off; a second
  switch there puts off what it returns and everything the first one returned too
  (`SecondSwitchShows`). Callers who go on with what a switch returned never meet one. Whether the
  answer then differs depends on the switch.
- A dropped member's data is purged after the transaction, one awaited purge at a time. Put back on the
  list before the purge runs, a current member loses their data, and only then
  (`PurgeHitsAMemberIff`, `ReAddedMemberIsPurged`).
- A stream leaves messages out if and only if, at an announcement it acts on, more than 200 have
  gathered and one of those pushed out has something to show (`AnnouncementDelivers`,
  `StreamsDeliverExactlyOnceIff`). It never repeats or reorders one.
- Two state changes merged into one announcement can leave the viewer with a state the task has left
  (`AnnouncementTellsState` says when, `MergedChangesMislead` shows it).
- A selector misses its element if and only if no element on the way has an id and an earlier element
  at another depth looks alike all the way up: same names, same type numbers above 1
  (`SelectorFindsItsElementIff`). That takes a recurrence of the top-level name before the element
  (`LaterRecurrenceIsHarmless`, `RecurringTopNameMisleads`).

## Model

| member | source | states |
|---|---|---|
| TenantPath.OrgIsOneSegment | packages/tenant/index.js:32-40 | whatever the email, the org is one safe path segment: not empty, not a dot segment, no separator, only `[a-z0-9.-]` |
| TenantPath.OrgIsTheDomain | packages/tenant/index.js:27-40 | the org is the slug of what follows the last `@`, in lower case; a clean domain is its own org, and text without `@` is unknown |
| TenantPath.LetterCaseIsNoMatter | packages/tenant/index.js:33 | emails that differ only in the case of letters belong to one org |
| TenantPath.CleaningKeepsExactly | packages/tenant/index.js:34-39 | a domain keeps exactly its letters, digits, dots and hyphens, in order and in lower case; nothing left, or a dot segment, is unknown |
| TenantPath.DigitsKeepExactly | packages/tenant/index.js:111 | a user id keeps exactly its digits, in order |
| TenantPath.NormalizeKeepsSegments | packages/tenant/index.js:138 | POSIX normalization never moves a path: the normalized text points at the same segments |
| TenantPath.JoinAppends | packages/tenant/index.js:138 | joining plain names to any root appends exactly those segments to where the root points |
| TenantPath.TenantDirIsTwoBelowRoot | packages/tenant/index.js:135-141 | every email and user id land exactly two segments below any root |
| TenantPath.TenantDirText | packages/tenant/index.js:135-141 | under an absolute root in plain form the directory is written root, slash, org, slash, u and the id |
| TenantPath.TenantsAreDisjoint | packages/tenant/index.js:135-141 | two directories are equal exactly for equal (org, user), and none lies inside another |
| TenantPath.FilesStayInStorage | packages/tenant/index.js:204-222 | a file name is refused exactly when its basename is no plain segment or holds NUL; an accepted one lands one segment below the tenant's storage directory |
| TenantPath.BasenameIsTheLastComponent | packages/tenant/index.js:211-217 | a supplied path is reduced to its last component, trailing slash or not, and a plain name to itself |
| TenantPath.PurgeHitsTheTenant | server/services/tenants.js:33-43 | the directory a revoke purges is the very one the app's helper uses |
| TenantPath.RawDomainNamesTheSame | server/services/tenants.js:37-43 | a raw domain instead of a slug names the same directory |
| Identity.SplitPayload | packages/tenant/index.js:61-64 | the payload can be read back line by line, for header values without line breaks |
| Identity.PayloadText | packages/tenant/index.js:53-78 | the signed text line by line: the version, the timestamp, then name and value of the eight headers, and for v2 the sign-in mark |
| Identity.PayloadInjective | packages/tenant/index.js:53-78 | payloads are equal if and only if version, timestamp and every signed header agree, absent counting as empty; no v1 payload is a v2 payload |
| Identity.Decimal | server/services/appMcp/identityHeaders.js:25-26 | the timestamp's text is all digits and reads back as the number |
| Identity.IssuedIsAccepted | packages/tenant/index.js:97-114 | an issued request gives back the signed identity exactly within -60 to maxAge seconds; with the v2 signature removed it verifies without a vouched authVia, or is refused under requireV2 |
| Identity.IssuedTellsTheHeaders | packages/tenant/index.js:109-113 | for any signed headers the app is told the digits of the id, the email, its org, and the sign-in mark as signed, a session where there is none, nothing vouched for without v2 |
| Identity.UnsignedIsRefused | packages/tenant/index.js:98-106 | no secret, no signature, no proper timestamp and no required v2 are each refused, in this order, and so is any signature but the right one |
| Identity.TamperingIsRefused | packages/tenant/index.js:53-78 | an issued request with any one of the protected headers altered, added or removed does not verify; the sign-in mark is protected by v2 |
| Identity.MatchingSignatureRepeats | packages/tenant/index.js:105-108 | an equal payload inside the window means the same timestamp, signed headers and identity |
| Identity.AcceptedWasIssued | packages/tenant/index.js:97-114 | with an ideal MAC every accepted request repeats one issuance, and what the app is told are that issuance's own headers; authVia is vouched for exactly by a v2 signature |
| Identity.HeadersNameTheCaller | server/services/appMcp/identityHeaders.js:12-24 | the headers built for a caller carry that caller's id and email and no sign-in-key mark |
| Identity.HeadersTellTheRights | server/services/appMcp/identityHeaders.js:15-24 | each right in the headers comes from the caller's own field, and the admin flag is 1 exactly for an admin or owner of the app |
| Identity.CallerIsIdentified | server/services/appMcp/identityHeaders.js:12-33 | an app verifying the platform's request gets the caller's own id, email, org and a session |
| Identity.UsersAreKeptApart | server/services/tenants.js:14-18 | different platform users never share or nest directories, and a revoke purges the revoked user's own |
| TenantMigration.StepSoundIff | packages/tenant/index.js:185-200 | one step keeps log, version and content exact if and only if it is not a commit from a list shorter than the locked version |
| TenantMigration.RunSoundIff | packages/tenant/index.js:185-200 | openers of any mix of releases keep the file exact in every state of a run if and only if no step of it commits from a list shorter than the locked version |
| TenantMigration.SharedListUpgradesOnce | packages/tenant/index.js:153-162 | for any number of openers of one list, under every interleaving, failure and crash: the log is exactly the first user_version steps, the file is at its old version or fully upgraded, and whoever got a handle got it upgraded |
| TenantMigration.AheadIsUntouched | packages/tenant/index.js:187 | a file at or past every opener's list is opened unchanged and never locked |
| TenantMigration.OlderReleaseRepeatsAStep | packages/tenant/index.js:198 | two releases can make a committed step run twice, because the shorter list's length is written back |
| TenantMigration.InterleavedOpenerIsMigrate | packages/tenant/index.js:191-199 | under any interleaving an opener commits exactly what `Migrate` computes from the file as it was when the lock was granted, and rolls back exactly when `Migrate` throws |
| TenantMigration.FailureFreesTheLock | packages/tenant/index.js:191-199 | a step that throws, a lock timeout and a crash leave the file and all others as they were and the lock free |
| TenantMigration.UndisturbedOpenerUpgrades | packages/tenant/index.js:185-200 | an opener that finds the file behind and no step throwing runs from check to commit, upgrades the file all the way, gets its handle and frees the lock |
| TenantMigration.TenantDb.Migrate | packages/tenant/index.js:185-200 | the loop runs the pending steps once each in order and sets the version to the list's length, or leaves the file as it was locked; a file not behind is not touched |
| StatementCache.CacheHoldsTheMostRecent | server/db.js:68-77 | after any history of prepare calls the map holds exactly the 500 most recently prepared distinct texts, oldest first |
| StatementCache.CacheStaysPristine | server/db.js:58-62 | whatever callers do, every cached statement stays as compiled, under its own text, and no cached statement object ever carries a caller's state |
| StatementCache.ChainedUseAgrees | server/db.js:54-80 | a caller that goes on with what a switch returned gets what a freshly compiled statement gives, and puts off only the prepared handles it has switched |
| StatementCache.AgreesIffNotOff | server/db.js:58-75 | any operation at all asks the engine the same with and without the cache if and only if it is no query on a handle that is off, and the two stay in step; `Off` says which handles the switches made so far put off |
| StatementCache.CacheShowsIffOff | server/db.js:54-80 | over any interleaving of callers doing anything, the operations at which the engine is asked something else are exactly the queries on handles that are off |
| StatementCache.SecondSwitchShows | server/db.js:75 | two switches on one prepared handle: the statement the first returned is then asked with both without the cache, with the first alone with it |
| StatementCache.CacheIsInvisible | server/db.js:54-63 | over any interleaving of callers who never query a handle that is off, all outcomes equal those of the uncached connection |
| StatementCache.PrepareTracks | server/db.js:67-79 | every prepare keeps the map equal to the most recent distinct texts and returns a pristine statement for its text |
| StatementCache.FiveHundredNewest | server/db.js:51-77 | the map holds the 500 most recently prepared distinct texts and nothing else |
| StatementCache.Database.Prepare | server/db.js:67-79 | hit, miss and eviction on the insertion-ordered map do what the abstract cache does |
| StatementCache.Database.CallStateful | server/db.js:75 | a stateful call on a shared statement runs on a fresh one and leaves the shared one alone; on a private one it works in place |
| Migrations.PendingIsTheRest | server/db.js:88-93 | with a prefix of the files applied, table or no table, the pending list is exactly the rest, whatever the files do |
| Migrations.BootKeepsPrefix | server/db.js:158-198 | one boot, cut off or thrown out anywhere, only lengthens the applied prefix, and got through exactly when the prefix is whole |
| Migrations.BootsKeepPrefix | server/db.js:158-198 | over any sequence of such boots, with no assumption on the files, the applied set is a prefix in order and the pending list the rest |
| Migrations.FileGetsThrough | server/db.js:185-194 | from whatever partial runs left, one whole run of a recovering file gives the next clean schema |
| Migrations.ApplySettles | server/db.js:178-197 | for recovering files, enough writes take the next file to the next clean schema, and fewer leave the database where that is still ahead |
| Migrations.BootSettles | server/db.js:158-198 | for recovering files, a boot cut off anywhere goes from a settled state to a settled one, never backwards; with enough writes it gets through |
| Migrations.RecoveringFilesSuffice | server/db.js:158-198 | if each file outside a transaction recovers from its own partial runs where it starts, every boot that is let run ends on the clean in-order schema, however earlier boots were cut off |
| Migrations.RecoveryIff | server/db.js:170-175 | that every release always recovers holds if and only if each file outside a transaction recovers from its own partial runs |
| Migrations.StuckForGood | server/db.js:185-188 | a file that throws before it changes anything is never applied and changes nothing, over any later boots |
| Migrations.RebuildRecoversIff | server/migrations/077-draining-host-ports.sql:54-73 | a table rebuild cut off after k statements starts over to the same result if and only if the cut is not between CREATE and RENAME (guarded as in 077: not between DROP and RENAME); there it throws |
| Migrations.RebuildGetsStuck | server/migrations/083-source-type-image.sql:40-104 | for any file that starts with an unguarded rebuild, a boot cut off between CREATE and RENAME leaves a database that no later boots bring any further |
| Migrations.AddColumnNeverRunsAgain | server/migrations/083-source-type-image.sql:106-121 | once the column is there, a file ending in its ADD COLUMN throws on every run, after any number of further runs cut off or thrown out anywhere |
| Migrations.AddColumnGetsStuck | server/migrations/083-source-type-image.sql:106-121 | a boot cut off after such a file's last statement and before its row leaves a database on which no later boots, however many and long, get through or record it |
| Migrations.Store.ExecSql | server/db.js:187 | statements run in order up to the cut or the first that throws, and what ran stays |
| Migrations.Store.ApplyFile | server/db.js:185-194 | a file in a transaction is applied with its row or not at all; outside one it is recorded only after all its statements |
| Migrations.Store.RunMigrations | server/db.js:158-198 | the runner's loop, cut after any number of writes or thrown out, does what the boot function says |
| Ingress.AllocateAssignable | server/services/tcpIngress.js:495-512 | the allocated number is assignable and the lowest such one |
| Ingress.NamedPortGrantedIff | server/services/tcpIngress.js:525-603 | a named number is granted if and only if it is in range, not blocked, and free or already pinned here; then it is pinned, and a live environment's old number drains |
| Ingress.UnnamedPortIsHeldOrLowestFree | server/services/tcpIngress.js:543-549 | without a number a held one is kept untouched, else the lowest free one of the automatic range is pinned; refused if and only if there is none |
| Ingress.AssignAgrees | server/services/tcpIngress.js:525-603 | an assignment leaves column and registry in agreement, touches no other app or environment, and lets go of a number only when moving one whose deployment is not live |
| Ingress.TransactionAgrees | server/routes/apps.js:1591-1617 | the whole transaction keeps all columns and the registry in agreement and lets go of exactly the numbers `LetsGo` names |
| Ingress.StepKeepsRegistry | server/services/tcpIngress.js:527-541 | every request, recreation, stop and deployment keeps the registry and the columns telling the same: one pinned number per app and environment, none owned twice |
| Ingress.PutKeepsBound | server/routes/apps.js:1397-1633 | a request keeps every bound port reserved if and only if what it lets go of is not bound |
| Ingress.SettleKeepsBound | server/services/tcpIngress.js:633-660 | releasing after a recreation keeps every bound port reserved if and only if the container binds nothing that is draining or left over |
| Ingress.SettleReleases | server/services/tcpIngress.js:633-660 | after a recreation the environment has no draining number, whatever is bound; a production row that stopped publishing holds none at all; otherwise row and pinned number stay; nothing of any other app or environment changes |
| Ingress.StartsAndStopsBind | server/services/docker.js:1118-1122 | a started container binds exactly the number a valid row publishes, a stopped one nothing, and no other container is touched |
| Ingress.FlippedPortComesFree | server/services/tcpIngress.js:323-342 | flip to http, recreate, release: the number stays reserved until the container is gone, and then anyone may have it |
| Ingress.RepinnedPortComesFree | server/services/tcpIngress.js:577-603 | re-pin live, recreate, release: the old number drains until then and is free for anyone afterwards, the new one is pinned and bound |
| Ingress.LaunchKeepsBound | server/services/docker.js:1118-1122 | a new container binds only a number reserved to it, and the release right after it is safe |
| Ingress.StepKeepsBoundIffSafe | server/services/tcpIngress.js:323-342 | one step keeps every bound port reserved to its container if and only if it is safe, a test on the state before it |
| Ingress.RunsKeepBoundIffSafe | server/services/tcpIngress.js:525-660 | every bound port stays reserved to its container throughout a run if and only if every step of the run is safe, and then no two containers bind one number |
| Ingress.OrdinaryStepsAreSafe | server/routes/apps.js:1530-1547 | flips and re-pins of live environments that drop no sandbox port are safe, and so is a recreation with no change in between |
| Ingress.FlipDuringRecreateFreesTheBoundPort | server/services/docker.js:1192-1221 | for any publishing app, a flip to http between reading the row and the release frees the number its new container binds |
| Ingress.DroppedSandboxPortIsHandedOut | server/routes/apps.js:1611-1612 | from a sound state, dropping a bound sandbox port lets another app bind the same number |
| Ingress.PlannedRow | server/routes/apps.js:1402-1516 | a request that passes validation leaves a dual row a legal data-plane port, a tcp row none, and assigns a port exactly when the row publishes |
| Ingress.LegalExposuresAreReachable | server/routes/apps.js:1402-1516 | from any valid row one request reaches each legal exposure, and each other exposure is refused |
| Ingress.AcceptedPutDoesWhatWasAsked | server/routes/apps.js:1397-1627 | on whatever row it was planned, an accepted request leaves each column at what was asked and every other at what it was; a flip to http frees nothing |
| Ingress.NamedNumberAcceptedIff | server/routes/apps.js:1383-1398 | naming one number on a valid publishing row changes nothing when it is the one held, and is else accepted if and only if a platform admin asks and it is in range, free and not blocked |
| Ingress.AcceptedRequestsMakeSense | server/routes/apps.js:1402-1464 | no accepted request names a port, data plane or protocol its type has no use for, or takes away what the type needs |
| Ingress.RefusalTellsWhy | server/routes/apps.js:1398-1401 | a change is refused 403 to all but platform admins and 400 to them; what is no change does not depend on the role |
| Ingress.PutKeepsRowsIff | server/routes/apps.js:1465-1617 | an accepted request leaves valid rows if and only if its plan fits the row as it is when written: a legal data plane for dual, none for tcp, a port held or assigned for publishing |
| Ingress.PutKeepsTrailIff | server/routes/apps.js:1604-1626 | an accepted request adds exactly one entry, and the trail stays unbroken if and only if the row it was planned on reports what the app's last entry ended with; any other request changes nothing |
| Ingress.EntryTellsBothRows | server/routes/apps.js:117-126 | the entry of an accepted request tells, of the row before and after, type, published numbers, data plane, protocol and the number only held |
| Ingress.StepKeepsRowsAndTrailIff | server/routes/apps.js:1591-1633 | any step keeps every row valid and every trail unbroken and up to date if and only if it is no accepted request that fails those two tests |
| Ingress.CurrentPlansFit | server/routes/apps.js:1379-1549 | a request planned on the row as it still is always passes both |
| Ingress.RunsKeepRowsAndTrailIff | server/routes/apps.js:1591-1633 | rows and trails are sound in every state of a run if and only if every step of the run fits |
| Ingress.StalePlanPublishesControlPlane | server/routes/apps.js:1133 | for any valid dual app, a flip to tcp is refused on the current row but accepted when planned on the http row read before the await, and then publishes the control plane |
| Ingress.EchoIsNoChange | server/routes/apps.js:1366-1398 | sending back what GET reported is a no-op for every role if and only if a publishing row has a port to publish, which every valid row has |
| Ingress.ControlPlaneStaysPrivate | server/services/tcpIngress.js:175-208 | the control plane is published only by a row whose type is tcp, and a valid row publishes exactly the numbers it holds, dual to its own data plane |
| Ingress.Platform.AllocatePublicPort | server/services/tcpIngress.js:495-512 | the loop finds the lowest assignable number |
| Ingress.Platform.AssignPublicPort | server/services/tcpIngress.js:525-603 | the savepoint's deletes, updates and inserts come to the assignment function, or to nothing |
| Ingress.Platform.ReleasePublicPort | server/services/tcpIngress.js:614-620 | afterwards the environment owns no number and its column is empty, and nothing of any other app or environment is touched |
| Ingress.Platform.ApplyWrites | server/routes/apps.js:1591-1617 | the transaction body comes to the transaction function |
| Ingress.Platform.ChangeIngress | server/routes/apps.js:1397-1633 | the handler answers and changes exactly what the step function says; refused or unchanged leaves everything as it was |
| Ingress.Platform.SettleAfterRecreate | server/services/tcpIngress.js:633-660 | releases draining numbers and a flipped production number, nothing else |
| Members.Requested | server/routes/apps.js:1794-1803 | the requested list is every entry's user in order, and is missing exactly when an e-mail is unknown |
| Members.AcceptedIff | server/routes/apps.js:1787-1815 | a replacement is accepted if and only if a platform admin or owner asks, every e-mail is known, an owner stays if there is one, and everyone listed exists; the first failing test is the answer |
| Members.StrangersChangeNothing | server/routes/apps.js:1787-1789 | a caller who is neither platform admin nor owner changes nothing |
| Members.Membership.Replace | server/routes/apps.js:1787-1829 | refused with nothing changed, or the members are exactly the list, survivors keep their tier, newcomers are plain members, only members keep app-defined roles, and exactly the dropped are queued for a purge, once each |
| Members.Membership.InsertMissing | server/routes/apps.js:1817-1820 | adds the missing as plain members and keeps everyone else's tier; fails exactly on an unknown user |
| Members.Membership.DropOthers | server/routes/apps.js:1821-1823 | removes exactly the former members left out |
| Members.Membership.QueueDropped | server/routes/apps.js:1830-1832 | the purges a request goes on to make are exactly the dropped users, once each |
| Members.Membership.PurgeOne | server/routes/apps.js:1832 | one awaited purge deletes its user's data without looking at the members again |
| Members.OwnersNeverRunOut | server/routes/apps.js:1809-1815 | over any run of requests, purges and crashes an app that once had an owner has one, and only members hold app-defined roles |
| Members.DroppedMeansGone | server/routes/apps.js:1821-1832 | a dropped user loses role and grants for good and comes back as a plain member; without a crash their purge is still to come or was made after the drop |
| Members.MemberIffReAdded | server/routes/apps.js:1816-1823 | after being dropped a user is a member if and only if the last request accepted since lists them |
| Members.PurgeHitsAMemberIff | server/routes/apps.js:1830-1832 | a purge deletes a current member's data if and only if the user was put back on the list, and not left out again, between the drop and the purge |
| Members.ReAddedMemberIsPurged | server/routes/apps.js:1832 | an owner who drops a user and puts them back before the purge gets its turn has that member's data deleted |
| Handoff.CodesGoToTheirOwnHost | server/services/appOrigin.js:73-105 | the host a code is sent to reads back as its own app and environment, exactly for slugs that do not themselves end in -sandbox |
| Handoff.HostsResolveIff | server/routes/appHandoff.js:45-55 | a host is an app's if and only if it is the own host of a known app and environment, or a custom domain outside the isolation domain, in production; the platform host never |
| Handoff.IssueNeedsAccess | server/routes/appHandoff.js:100-122 | a code is issued if and only if an active user with a live platform session may enter the app; otherwise nothing changes; with it exactly the expired codes go, and it lives 60 seconds |
| Handoff.PresentOpensIff | server/routes/appHandoff.js:140-189 | presenting opens a session if and only if the code is unused, in time, on its own site, with its cookie, under a live parent session of its active user; the deadline is the policy's or the parent's, whichever is earlier |
| Handoff.LogoutEndsIff | server/routes/appHandoff.js:195-204 | logging out ends the token's session if and only if it is one of this app and environment, and no other |
| Handoff.StepKeepsInv | server/routes/appHandoff.js:83-208 | every step keeps sessions tied to their codes, and a spent code stays spent |
| Handoff.SessionsComeFromCodes | server/routes/appHandoff.js:100-189 | over every run each app session has a code of its own: same user, app and environment, presented there within its minute by the browser with the state cookie, under the platform session the code was issued in, deadline at most that session's |
| Handoff.EverySessionWasOpened | server/routes/appHandoff.js:140-189 | every app session after a run was opened at one moment of it by a presentation that passed every check, with the code's parent session in the table, alive, and ending no earlier |
| Handoff.EverySessionWasEntitled | server/routes/appHandoff.js:100-189 | every app session's code was issued earlier in the run, less than 60 seconds before it was presented, to the same active user, entitled to enter that app and signed in with the session that was still live then |
| Handoff.SpentForGood | server/routes/appHandoff.js:148-156 | a live code shown on any app host is never accepted again anywhere, however the run goes on, purges included |
| Handoff.RunKeepsSpent | server/routes/appHandoff.js:117 | no run, with all its purges, makes a spent code unspent |
| Handoff.UnusedCodeWaits | server/routes/appHandoff.js:117-122 | an unshown code keeps waiting unchanged until it expires, whatever other sign-ins and their purges do |
| Handoff.LoggedOutForGood | server/routes/appHandoff.js:195-204 | logging out ends that session only, its token never comes back, and its code opens nothing more |
| Handoff.IntendedUseSignsIn | server/routes/appHandoff.js:140-192 | whatever happens in between, a code first shown within its minute on its own host by its own browser under a live parent does sign that user in |
| Handoff.HandoffDb.IssueCode | server/routes/appHandoff.js:100-122 | issues under a live platform session with access, after purging expired codes |
| Handoff.HandoffDb.OpenSession | server/routes/appHandoff.js:150-189 | spends the code first, then opens a session exactly when every check passes |
| Handoff.HandoffDb.EndAppSession | server/routes/appHandoff.js:201-204 | deletes the session only of this app and environment |
| A2aStream.AnnouncementDelivers | server/services/crewA2aView.js:163-186 | an announcement delivers exactly the unsent messages, each once and in order, if and only if none with anything to show is older than the 200 the reader keeps |
| A2aStream.OpeningEndsIff | server/routes/a2a.js:183-187 | a stream opens ended exactly on a lost or finished task, and only on a lost one without a snapshot |
| A2aStream.AnnouncementEndsIff | server/routes/a2a.js:158-167 | an announcement ends a stream if and only if it tells of a deletion or finds the task lost or finished, each with its reason; an ended stream stays as it is |
| A2aStream.AnnouncedTwiceSendsOnce | server/services/crewA2aView.js:163-186 | the same announcement again sends nothing, whatever the stream had seen before |
| A2aStream.RepeatSendsNothing | server/routes/a2a.js:158-167 | a repeated or late announcement sends nothing |
| A2aStream.AnnouncementTellsState | server/services/crewA2aView.js:180-184 | after an announcement the viewer knows the task's state if and only if the state changed, or no message of the batch told one, or the last one told is the state |
| A2aStream.MergedChangesMislead | server/services/crewA2aView.js:176-184 | two changes in one announcement can leave the viewer with a state the task has left |
| A2aStream.OneChangeAtATimeIsTold | server/services/crewA2aView.js:169-184 | announced one change at a time, the viewer always ends at the task's state |
| A2aStream.EndTellsState | server/routes/a2a.js:166 | a stream that ends with its task has told the final state |
| A2aStream.AnnouncementKeepsOneSnapshot | server/routes/a2a.js:183-187 | no announcement sends another snapshot |
| A2aStream.StreamsDeliverExactlyOnceIff | server/routes/a2a.js:143-188 | over every run the stream has sent one snapshot first and then only later messages, in order and none twice, and one that ended with its task told a terminal state; it has left none out if and only if no announcement it acted on found one with something to show pushed out |
| A2aStream.StreamsStayOpenUntilAnEnd | server/routes/a2a.js:143-188 | over every run a stream has ended if and only if it opened on a finished task or the run holds a timeout, a disconnect, or an announcement that found the task deleted, lost or finished; until then each announcement brings it up to all messages |
| A2aStream.StreamServer.Serve | server/routes/a2a.js:143-188 | opens the stream with its snapshot, or closes it at once, and counts it |
| A2aStream.StreamServer.OnEvent | server/routes/a2a.js:158-167 | the callback does to its stream what the announcement function says, and to no other |
| A2aStream.StreamServer.Send | server/routes/a2a.js:148-165 | writes the items in order to its stream only |
| A2aStream.StreamServer.Close | server/routes/a2a.js:149-157 | ends a stream once; every agent's counter stays its number of open streams |
| RateLimit.KeyFixesKind | server/middleware/apiRateLimit.js:24-32 | one bucket key never mixes two limits, and an address bucket never mixes two addresses |
| RateLimit.SameBucketIff | server/middleware/apiRateLimit.js:24-32 | requests share a bucket if and only if they carry the same kind of credential with the same hash, or none and the same address and both or neither are session checks |
| RateLimit.CurrentWindow | server/middleware/apiRateLimit.js:47-51 | of the n requests in the current window exactly min(n, limit) were admitted, and the bucket counts them |
| RateLimit.RefusedOnlyAtLimit | server/middleware/apiRateLimit.js:49 | a request is refused only when its window has admitted the limit |
| RateLimit.LessThanTwiceTheLimit | server/middleware/apiRateLimit.js:43-52 | at most 2 x limit - 1 requests are admitted in any closed interval of one window length |
| RateLimit.TheBoundIsMet | server/middleware/apiRateLimit.js:48 | that bound is reached |
| RateLimit.SweepsAndOthersDoNotMatter | server/middleware/apiRateLimit.js:36-41 | sweeps at any moments and traffic on other keys change no decision |
| RateLimit.LimiterBound | server/middleware/apiRateLimit.js:34-52 | the bound holds for the shared map, over any traffic and sweeps |
| RateLimit.BudgetIsALimiter | server/routes/a2a.js:70-76 | the agent budget, which also counts refusals, decides like a limiter with a window one millisecond shorter |
| RateLimit.BudgetBound | server/routes/a2a.js:70-76 | at most 1199 requests pass in any half-open minute, and min(n, 600) of a window's n |
| RateLimit.ApiRateLimit.Handle | server/middleware/apiRateLimit.js:43-52 | decides and counts on the one bucket, touching no other |
| RateLimit.ApiRateLimit.SweepAt | server/middleware/apiRateLimit.js:37-40 | afterwards no bucket has run out, and none that had not is gone or changed |
| RateLimit.AgentBudget.Charge | server/routes/a2a.js:70-76 | decides from the agent's own history and touches no other agent |
| Sse.LastOfBlocks | server/routes/appMcp.js:287-296 | the loop over the blocks keeps the last message with the id, and until one comes the first message |
| Sse.LastSseMessage | server/routes/appMcp.js:286-297 | returns the last message with the id, and without one the first message |
| Sse.WantedAfter | server/routes/appMcp.js:293 | the loop's test keeps exactly that choice as messages arrive |
| Sse.BlocksAfter | server/routes/appMcp.js:288 | the block split takes off exactly the lines before the first empty one, with LF or CRLF |
| Sse.AnyFieldIsRead | server/routes/appMcp.js:289 | a data field is read with any white space after its colon, or none |
| Sse.WireIsRead | server/routes/appMcp.js:286-297 | every event written is recovered, once and in order, whatever heartbeats come between, with LF or CRLF, and with data of several lines put together (section 9.2 of the WHATWG HTML Standard) |
| Sse.WholeStreamGivesItsLastEvent | server/routes/appMcp.js:286-297 | reading back a whole stream of one request gives its last event |
| Selector.Number | server/assets/app-picker.js:31-32 | the inner loop counts the earlier siblings of the same name |
| Selector.SelectorFor | server/assets/app-picker.js:24-38 | the climbing loop builds the chain from the nearest id or from below the document element |
| Selector.NeverWritesFirst | server/assets/app-picker.js:30-33 | `:nth-of-type(1)` is never written, and an id only at the head |
| Selector.MatchesItself | server/assets/app-picker.js:24-38 | every element matches its own selector |
| Selector.SiblingMatchIsLater | server/assets/app-picker.js:33 | leaving out `:nth-of-type(1)` lets in later siblings only |
| Selector.OtherMatchesAreLater | server/assets/app-picker.js:24-38 | every other match is at the same depth and later in document order |
| Selector.SelectorFindsItsElement | server/assets/app-picker.js:24-38 | the first match of the selector is the element itself, when an id lies on the way or its top-level name stays on top |
| Selector.SameDepthMatchesAreLater | server/assets/app-picker.js:24-38 | with no id on the way, other matches at the element's depth come later, and none is shallower unless the top-level name is the document element's |
| Selector.MatchesIffWaysAlike | server/assets/app-picker.js:24-38 | with no id on the way, an element matches if and only if its name and those of its ancestors agree with the element's up to the top level, and so do the type numbers above 1 |
| Selector.SelectorFindsItsElementIff | server/assets/app-picker.js:24-38 | for every element of every document with unique ids, the selector misses it if and only if no element on the way has an id and one at another depth that looks alike all the way up comes earlier |
| Selector.LaterRecurrenceIsHarmless | server/assets/app-picker.js:28-37 | only a recurrence of the top-level name before the element can mislead |
| Selector.EveryElementIsFound | server/assets/app-picker.js:24-38 | in a document with unique ids whose top-level names stay on top this holds for every element |
| Selector.RecurringTopNameMisleads | server/assets/app-picker.js:28-37 | without that condition an earlier element can match first |
| SelfUpdate.StepKeepsInv | server/index.js:602-662 | every boot, failure, crash, torn write and reset keeps resets within the recorded attempts and on the recorded commit |
| SelfUpdate.AtMostThreeResets | server/index.js:623-651 | between two writes of the record at most three resets happen, each to the same commit, the record's previous_sha while it can be read |
| SelfUpdate.CompletedNeverResets | server/index.js:615-618 | a completed record never leads to a reset and keeps its verdict |
| SelfUpdate.SuccessMeansTarget | server/index.js:1537-1544 | success is recorded only by a healthy process running the target version |
| SelfUpdate.FailingBootsSpendTheBudget | server/index.js:623-651 | a failing boot with budget resets once and spends one attempt; at the budget's end another changes nothing |
| SelfUpdate.UpdateOpensRecord | server/index.js:907-917 | a written update leaves a fresh open record naming where it came from and what it should become, with no attempt spent |
| SelfUpdate.BadUpdateIsRolledBack | server/index.js:623-657 | after an update three failing boots reset three times to the commit it came from, and a fourth changes nothing |
| SelfUpdate.NoCommitNoReset | server/index.js:615-622 | without an open record that names a commit, a failing boot resets nothing |
| SelfUpdate.HealthyBootCloses | server/index.js:1536-1544 | a healthy boot closes an open record with the version it runs, a success exactly when that is the target, and leaves any other file as it is |
| SelfUpdate.VerdictTellsWhatRuns | server/index.js:1537-1544 | an update that boots is recorded a success; one that was rolled back is recorded a success only if the versions are the same |
| SelfUpdate.Host.MaybeAutoRollback | server/index.js:602-662 | stopped at any of its steps, the rollback does what the step function says and the process is down |
| SelfUpdate.Host.Reconcile | server/index.js:1530-1553 | a healthy boot completes an open record with its verdict and leaves a completed one alone; it serves even if that write fails |
| SelfUpdate.Host.WriteUpdate | server/index.js:907-953 | a self-update replaces the record, starts a new budget and restarts; a write that throws leaves the old process serving on new code |

## Left out

- Identity: the MAC is ideal (a signature is the term of its secret and payload); base64url, the constant-time comparison and `Number(ts)` beyond exact integers are not modelled.
- Identity.CallerIsIdentified: the percent-encoding of the name and the joining of role keys are inputs.
- TenantPath: lower-casing is exact on the characters the slug can keep; Windows paths, directory creation, quotas and `tenantKey` without a secret are not modelled.
- TenantMigration: what happens inside SQLite is one atomic commit and one write lock; a step is any partial function on the file's content.
- StatementCache: query results are symbolic (text, stateful calls made, arguments): equal symbols give equal results, different ones need not give different results. Busy iterators are a stateful call like the others.
- Migrations: the mark is a flag, the pre-migration snapshot is not modelled, and a file added under an earlier name breaks the prefix. Connection state that a PRAGMA sets is not part of the schema.
- Migrations.RecoveryIff: speaks of file sets whose one clean run does not throw; there is no clean schema otherwise.
- Migrations.RebuildRecoversIff: tables are sets of row keys and columns; constraints, indexes and triggers are statements that change no table.
- Ingress: apps are not created or deleted, docker failures and the MCP ingress tool are not modelled, the blocked ports are a set per request, and the partial unique indexes follow from the agreement that is proved.
- Ingress.PutKeepsTrailIff: a trail chains the reported configuration; `pending_port_release` is recorded beside it but not chained, since a recreation clears it without an entry.
- Members.Membership.Replace: ids are integers; other routes that change members are not modelled.
- Members.Membership.PurgeOne: a purge always deletes; one that fails, or an app without tenants, deletes nothing.
- Handoff: tokens and codes are opaque identities equal to their hashes; the session policy's trigger may leave any expiry on the inserted row; later refreshes, the sign-out cascade (one session ended per step) and page, cookie and redirect texts are not modelled.
- Handoff.CodesGoToTheirOwnHost: the host is already stripped of port, case and trailing dot.
- A2aStream: no strict cap of ten streams is claimed, since the check precedes an await; message bodies and timestamps are not modelled, and heartbeats are in `Sse`.
- RateLimit: the credential's extraction from headers, the client address and the hash are inputs; the clock does not go backwards.
- Sse: `JSON.parse` is any partial function; the reader's regular expressions are modelled exactly, other event-stream fields only as lines to skip.
- Selector: a selector is a list of compounds; its text, CSS escaping of ids, `nth` in namespaced or SVG names and a DOM that changes meanwhile are not modelled.
- SelfUpdate: git and npm are one reset that works or not; the pre-update snapshot, `started_at` and log fields are not modelled.
- HTTP, Express, Caddy, Docker, the CLI, CSP and page serving, e-mail, MCP transport and the dashboard bundle.
