# Verified model of the nbox entry store and its push protocol

nbox keeps configuration entries under slash-separated keys, on a flat table with the
primary key (Path, Key), optionally with their values in one of two parameter-store
backends, and pushes changes to agents over gRPC streams. This project models the
following parts in Dafny and proves what they promise.

- **Keys and rows** (`Text`, `Paths`, `Canonicalize`, `RoundTrips`): the character-level path
  algebra, with the rules of Go's `path` package written out, and the request-key guard.
- **The table** (`Table`, `TableKit`): a service that may fail or hand work back at any call,
  and the chunked, retried batch operations on it.
- **The tree on the table** (`KeyTree`, `FirstWins`, `EntryStore`, `UpsertTree`, `TreeRuns`,
  `UpsertReport`, `SubtreeDelete`, `Subtree`, `EntryReads`, `EntryLevels`, `Navigation`): writes
  with their folder markers, breadth-first deletes, point, batched, flat and level reads, what
  a reader gets to by following the listings, and the invariant that holds them together: every
  row has a marker for each folder above it.
- **Routing over backends** (`PrefixIndex`, `Parameters`, `Gateway`, `ExternalWrites`,
  `GatewayOps`, `GatewayPlan`, `GatewayReport`, `Schedules`, `GatewayRuns`, `GatewayReads`):
  longest-prefix routing, concurrent external writes as interleaved steps, the index stamped
  with the backend, the refinement of it all to a plain map, and what a key resolves to when
  part of a write failed.
- **Watching** (`Events`, `Broker`, `BrokerRuns`, `Snapshots`, `Watch`, `Recorder`, `Convergence`,
  `Announcements`, `ConvergenceLimits`, `Freshness`): the broker with its bounded buffers, one
  stream from subscription to end, what is announced and what is masked, replication to an agent
  as a state machine, and shared resolves.
- **Templates** (`Replacer`, `Template`, `Renderer`): the placeholder pattern, the
  simultaneous replacement, argument substitution and the rendering of a box.

`Seqs` and `Options` are shared helpers. `dafny verify dfyconfig.toml` checks everything.

A key is *canonical* when it is non-empty, lower-case, free of white space, and its segments
are non-empty and neither `.` nor `..`. The environment enters as nondeterminism: each call of a
service may fail, any subset of a batch may be handed back, there is time for any number of
retries, maps are iterated in any order, and others write and publish while a stream is served.
The services remember what they were asked and count what they did not carry out, so that every
operation on them is held to fail for no other reason. What a stream meets after its snapshot is
a sequence of cues given to it. Sealing is a symbolic constructor.

## Where the code and its comments part

- `ByPrefix` is described as longest-prefix match. It compares the prefixes as they were
  written, not the slash-trimmed names; `PrefixIndex.LongestPrefixMatch` says exactly when
  that is longest-prefix match, and `PaddedPrefixBreaksLongestMatch` gives a pair that breaks it.
- The identifier that keeps one marker request per folder has no separator, so two folders of
  one batch can share it (`TreeRuns.IdentifiersCollide`) and a later delete can miss a subtree.
  `TreeRuns.RunsKeepTree` and `GatewayRuns.RefinesExactly` say when all is well over a history.
- The snapshot leaves out lock entries while the live events include them
  (`ConvergenceLimits.LockEntryIsMissed`).
- Announcements are published by detached routines, one per request, so two of one key can
  overtake each other, and one that fails is not repeated; deletes announce nothing. What an
  agent holds then is shown by `ConvergenceLimits.OutOfTurnIsStale`, `LostIsMissed` and
  `DeletedIsKept`, and `Convergence.Converges` names the conditions under which it agrees.
- Resolving once per event assumes that identifiers tell the events of a subject apart; they
  are trace identifiers and may be empty (`Freshness.SharedIdIsStale`). The call key joins
  identifier and subject with a separator that identifiers may contain
  (`Freshness.SeparatorMixesSubjects`). `Freshness.FreshExactly` says when all values are fresh.
- A write can be reported as done while its key is not found or keeps its old value
  (`GatewayReads.ReportedButNotFound`, `GatewayReads.ReportedButStale`);
  `GatewayReads.ReadableExactly` says, from the row before the call, when it is sure to resolve
  to the value written.
- The level listing is there for navigation, but a folder whose name starts like a lock is not
  shown, and nothing below it is met on the way down (`Navigation.MetExactly`).
- Arguments are substituted in the order in which the map yields them, so the text can differ
  from call to call (`Renderer.TextFreeByInterchange`, `Renderer.TextFreeExactly`).

## Model

| member | source | states |
|---|---|---|
| `Paths.ComputePrefixes` | internal/entry/processor.go:19-26 | the loop collects exactly the folders above a key, shortest first (what that list is: PrefixesExact, PrefixesGrow) |
| `Paths.PrefixesExact` | internal/entry/processor.go:19-26 | for any string, q is among the prefixes if and only if the string starts with q and a slash |
| `Paths.PrefixesGrow` | internal/entry/processor.go:19-26 | later prefixes lie below earlier ones |
| `Paths.CanonicalCases` | internal/entry/processor.go:43-53 | a canonical key is its base, or a canonical directory, a slash and its base; the base is one good segment |
| `Paths.ConcatChild` | internal/entry/processor.go:56-66 | joining a directory and a child gives directory, slash, child, and keeps a marker's trailing slash |
| `Paths.RoundTrip` | internal/entry/processor.go:43-66 | for every canonical key k, splitting and joining gives k back, and k/ for its marker |
| `Paths.SplitInjective` | internal/entry/processor.go:43-53 | distinct canonical keys never share a row, and no key shares a row with a folder marker |
| `RoundTrips.RoundTripExact` | internal/entry/processor.go:43-66 | among slash-trimmed keys the round trip holds if and only if the key has no slash, or cleaning leaves it alone and its directory is not the escaped empty path |
| `RoundTrips.LostWriteReport` | internal/entry/store/dynamodb.go:254-269 | when a one-entry write is lost completely, the caller is told so if and only if the key survives the round trip; otherwise the key is reported as updated |
| `Canonicalize.CleanKeyIdempotent` | internal/transport/http/middleware/canonicalize.go:21-42 | cleaning twice is cleaning once, for every input |
| `Canonicalize.CleanKeyFixedPoints` | internal/transport/http/middleware/canonicalize.go:72-77 | the values that pass through untouched are exactly the empty one and paths of normal segments with at most one trailing slash |
| `Canonicalize.CleanKeyCanonical` | internal/transport/http/middleware/canonicalize.go:21-42 | on lower-case input without white space a non-empty result is a canonical key up to one trailing slash, and is the name NormalizeKey uses |
| `Canonicalize.CanonicalIsStable` | internal/entry/processor.go:68-70 | a canonical key is left alone by the request guard, by sanitising and by lower-casing, and normalises to itself behind a slash |
| `Canonicalize.ParentCancels` | internal/transport/http/middleware/canonicalize.go:19-30 | wherever a parent step follows a normal segment, the two cancel: x/s/../y is cleaned like x/y, for all texts x and y |
| `Canonicalize.RootParentDrops` | internal/transport/http/middleware/canonicalize.go:19-30 | at the root a parent step does nothing: ../y is cleaned like y |
| `Canonicalize.DotDrops` | internal/transport/http/middleware/canonicalize.go:19-30 | empty segments and single dots between slashes do nothing |
| `Canonicalize.OnlyOneCleans` | internal/transport/http/middleware/canonicalize.go:21-42 | the only function of segments that leaves normal ones alone and obeys these laws is the one that the guard uses |
| `Canonicalize.NormalizeDecorated` | internal/entry/processor.go:68-70 | white space around a key does not matter to its normal form |
| `Text.TrimUnique` | internal/entry/processor.go:68-70 | trimming a text between characters of the cutset gives exactly the text, if it neither starts nor ends with one |
| `Text.TrimExact` | internal/entry/processor.go:68-70 | trimming removes characters of the cutset at both ends, and all of them |
| `Text.BlanksTrimmed` | internal/box/processor.go:39-45 | blanks, tabs and line ends around a text are trimmed away |
| `Text.LowerLetters` | internal/entry/store/dynamodb.go:525-529 | lower-casing turns the 26 capital letters into the small ones and changes nothing else |
| `UpsertTree.SanitizeDecorated` | internal/entry/store/dynamodb.go:525-529 | letter case, white space and slashes around a key do not matter to an upsert |
| `PrefixIndex.ParseIndex` | internal/prefix/store/index.go:28-31 | the loop keys every configuration by its slash-trimmed prefix, later ones replacing earlier ones |
| `PrefixIndex.IndexOfWellKeyed` | internal/prefix/store/index.go:28-31 | no two stored names hold the same written prefix, and every name is slash-trimmed, for any list of configurations |
| `PrefixIndex.ByPrefix` | internal/prefix/store/index.go:37-62 | the scanning loop computes the scan that ScanIsBest and LongestPrefixMatch are about, and fails on an empty key |
| `PrefixIndex.ScanIsBest` | internal/prefix/store/index.go:44-57 | the scan finds nothing exactly when no candidate is stored, and otherwise the one candidate that beats all others |
| `PrefixIndex.LookupIsBestCover` | internal/prefix/store/index.go:37-62 | a lookup finds nothing exactly when no stored name covers the key, and otherwise the best covering one |
| `PrefixIndex.LongestPrefixMatch` | internal/prefix/store/index.go:35-62 | on every key the lookup is a naive scan for the longest stored name that is the key or a folder above it, if and only if no configuration is displaced by one stored for a folder above it |
| `PrefixIndex.TrimmedConfigsMatchLongest` | internal/prefix/store/index.go:35-62 | when the stored prefixes are slash-trimmed, routing is longest-prefix match on every key |
| `PrefixIndex.PaddedPrefixBreaksLongestMatch` | internal/prefix/store/index.go:51-53 | with //a// and a/b configured, a/b is routed by the configuration of the shallower one, because the written prefixes are compared and not the trimmed ones |
| `TableKit.WriteChunk` | internal/platform/aws/dynamodb_kit.go:54-83 | the first call sends the whole chunk, each later one what the one before left undone, and the last one's remainder is what is left; something is left only after all attempts that there is time for, each of them refused in part by the service; every request is acknowledged once or left over |
| `TableKit.BatchWrite` | internal/platform/aws/dynamodb_kit.go:41-100 | every request is sent, on calls of 1 to 25, and acknowledged exactly once or, because the service left it undone, among the leftovers; there is an error exactly when something is left over, and none if the service refused nothing; on distinct rows the acknowledged ones are what the table holds |
| `TableKit.GetChunk` | internal/platform/aws/dynamodb_kit.go:129-178 | a chunk that succeeds has read every row that exists and nothing else; each call asks for what the partial answer before it left out; it fails only if the guard or a call fails or the fourth answer is still partial |
| `TableKit.BatchGet` | internal/platform/aws/dynamodb_kit.go:103-127 | the same for any number of keys, failing only if the service refused something; no call exceeds 100 keys or repeats a key that the caller did not repeat |
| `KeyTree.ClosedByParents` | internal/entry/store/dynamodb.go:212-236 | every row has a marker for each folder above it if and only if every row's own directory has one |
| `KeyTree.WalkVisitsSubtree` | internal/entry/store/dynamodb.go:446-506 | on a closed table of canonical rows the marker walk from k reaches exactly the directories k and below |
| `SubtreeDelete.DeletePage` | internal/entry/store/dynamodb.go:481-513 | one page's rows are removed and the directories its markers lead to are queued in page order; on error only rows of the page are missing |
| `SubtreeDelete.DeletePartition` | internal/entry/store/dynamodb.go:455-515 | a directory is emptied page by page; on error only rows of the directory are missing |
| `SubtreeDelete.WalkDone` | internal/entry/store/dynamodb.go:446-515 | when the queue is empty the visited directories are exactly those the markers lead to |
| `SubtreeDelete.Delete` | internal/entry/store/dynamodb.go:429-518 | on any finite table: success leaves exactly the rows that are neither the key's own nor in a directory the markers lead to; failure loses only such rows and only comes from the service; one query is made for the key and one for each marker removed |
| `Subtree.DeleteIsExact` | internal/entry/store/dynamodb.go:429-518 | a successful delete takes exactly the subtree if and only if every row of the subtree is reachable by markers |
| `Subtree.DeleteFromClosed` | internal/entry/store/dynamodb.go:429-518 | from a closed table of canonical keys a successful delete leaves exactly the rows outside the key and its subtree |
| `Subtree.PrunedByKey` | internal/entry/store/dynamodb.go:429-518 | in terms of keys: k and everything below k/ is gone, k's own marker and siblings such as kx stay |
| `Subtree.ErasedLeaf` | internal/entry/store/dynamodb.go:429-518 | on any canonical table, closed or not, a delete of k takes the key k and those keys below k/ that have their markers between k and themselves, and no other key |
| `Subtree.FolderDelete` | internal/entry/store/dynamodb.go:429-518 | a delete of k/ from a closed table takes what is below k and leaves the key k itself |
| `Subtree.PrunedKeepsTree` | internal/entry/store/dynamodb.go:429-518 | what is left is again closed |
| `EntryStore.Upsert` | internal/entry/store/dynamodb.go:161-269 | the requests sent are exactly those of the batch's map, all conserved through the chunked write, and the report is the optimistic one with every leftover turned into a failure; on a service that refuses nothing nothing is left and nothing is reported failed |
| `EntryStore.CollectMarkers` | internal/entry/store/dynamodb.go:212-236 | a marker is requested for every folder above the key unless its identifier is taken already |
| `UpsertTree.NeededExact` | internal/entry/store/dynamodb.go:212-236 | a folder is needed by a batch exactly when some key of the batch lies below it |
| `UpsertTree.RequestForKey` | internal/entry/store/dynamodb.go:172-210 | the request under a key's identifier carries the last entry given for that key: no later one has it |
| `UpsertTree.BatchRows` | internal/entry/store/dynamodb.go:206-236 | after a batch written in full the rows are the old ones, a leaf for each key, and the markers that were not displaced |
| `UpsertTree.MarkerHolds` | internal/entry/store/dynamodb.go:212-236 | the row of a kept folder marker holds no value, and the time and actor of the request |
| `UpsertTree.BatchCanBeInstalled` | internal/entry/store/dynamodb.go:242-254 | on any table every batch of requests can be carried out in full, so the statements about full writes are about something |
| `TreeRuns.BatchKeepsTree` | internal/entry/store/dynamodb.go:212-236 | a batch written in full keeps the table closed if and only if no needed marker is lost to another one with the same identifier |
| `TreeRuns.SingleKeyIsInjective` | internal/entry/store/dynamodb.go:212-236 | a single key never loses a marker |
| `TreeRuns.InjectiveLosesNone` | internal/entry/store/dynamodb.go:212-236 | a batch whose marker identifiers are distinct loses none |
| `TreeRuns.IdentifiersCollide` | internal/entry/store/dynamodb.go:213-217 | keys below a/bc and ab/c ask for two markers under one identifier, and the second is dropped |
| `TreeRuns.LostMarkerOrphans` | internal/entry/store/dynamodb.go:213-217 | every row stored below a lost marker survives the deletion of any folder above it, and some key of the batch is among them |
| `TreeRuns.CollisionOrphansSubtree` | internal/entry/store/dynamodb.go:213-217 | writing such a pair to an empty table leaves it open, and everything below the lost marker, the second key included, outlives the deletion of its top folder |
| `TreeRuns.RunsKeepTree` | internal/entry/store/dynamodb.go:161-518 | over any run of full writes and successful deletes, every row has a marker for each folder above it in every state if and only if no write loses a marker; and then each delete takes exactly its subtree |
| `UpsertReport.ReportIsTruthful` | internal/entry/store/dynamodb.go:254-269 | for distinct canonical keys and any service behaviour, a key is reported updated exactly when its row was acknowledged, and then the row is stored |
| `EntryReads.RetrieveMany` | internal/entry/store/dynamodb.go:92-159 | for canonical keys, repeats included, a successful batched read is the map from each stored key to what reading it alone gives; no call repeats a row or exceeds 100 keys |
| `EntryReads.Deduplicate` | internal/entry/store/dynamodb.go:97-104 | the keys once each |
| `EntryReads.ListLeaves` | internal/entry/store/dynamodb.go:379-420 | one scan, filtered: exactly one entry for every kept row and no other, in scan order (which rows are kept: ScanIsWalkIsFilter, ListedLeaves) |
| `EntryReads.ScanIsWalkIsFilter` | internal/entry/store/dynamodb.go:374-420 | on a closed canonical table a row is in the scan's scope exactly when the marker walk visits its directory, and a leaf exactly when its key starts with k/, the broker's filter |
| `EntryReads.ListedLeaves` | internal/entry/store/dynamodb.go:379-420 | an entry is listed exactly when it is a non-marker, non-lock, non-blank row that the walk visits, equivalently one whose key starts with k/ |
| `EntryLevels.ListLevel` | internal/entry/store/dynamodb.go:309-360 | exactly one entry for every row of the directory, markers included, lock entries left out |
| `EntryLevels.List` | internal/entry/store/dynamodb.go:367-372 | one entry for each row of the subtree's flat listing when leaves are asked for below the root, and otherwise for each row of the level; it fails only if the service does |
| `EntryLevels.ListedFor` | internal/entry/store/dynamodb.go:309-372 | a folder is listed alike with and without a slash at its end, and the root by its level also when leaves are asked for |
| `EntryLevels.LevelLeadsEverywhere` | internal/entry/store/dynamodb.go:362-365 | on a closed table every row below k is in directory k or below a folder whose marker is stored in k (whether a listing shows that marker: MetExactly) |
| `Navigation.MetExactly` | internal/entry/store/dynamodb.go:309-360 | on a closed table a reader who lists folder k and then the folders shown is shown a row if and only if it lies below k and no segment of its key below k starts like a lock |
| `Navigation.MetFromRootExactly` | internal/entry/store/dynamodb.go:309-360 | and one who starts at the root is shown it if and only if no segment of its key starts like a lock |
| `EntryLevels.LockFolderIsHidden` | internal/entry/store/dynamodb.go:343-344 | a folder whose name starts like a lock is not shown by the level listing, although its leaves are in the flat one |
| `Parameters.ParameterService.Send` | internal/entry/store/ssm.go:180-208 | a successful put holds value and type one version on, is reported as created exactly when the parameter is new, returns an index entry that leads to it, and is what a read of the key then gives if reads and writes name it alike; a failed put may have done the same; no other parameter changes |
| `Parameters.ParameterService.Remove` | internal/entry/store/ssm.go:159-178 | without error a read of the key finds nothing, also when it was not there; with an error it finds nothing or what it found before; no other parameter changes |
| `GatewayPlan.WriteNameLowers` | internal/entry/store/ssm.go:232-233 | writes use the lower-case name and reads the name as it is spelt, so the two agree on a key, up to white space around it, if and only if it has no capital letters |
| `GatewayPlan.ArnOfKey` | internal/entry/store/ssm.go:210-230 | the index refers to a parameter by its name, or by region, account and name, in this order |
| `ExternalWrites.MergeReports` | internal/entry/store/gateway.go:190-205 | one backend's reports, merged in any map order, leave the shared report and the entries for the index exactly as its writes came out |
| `ExternalWrites.WriteExternal` | internal/entry/store/gateway.go:182-207 | under any interleaving of sends and merges, the parameters, the report and the entries for the index end up as the fate of each single write says |
| `GatewayOps.RouteFollowsBestCover` | internal/entry/store/gateway.go:53-77 | a key goes where the best stored prefix covering it says, nowhere if that backend is not registered, and to the index by default only if no prefix covers it |
| `GatewayOps.EmptyKeyUnroutable` | internal/entry/store/gateway.go:53-77 | a key of nothing but slashes goes nowhere |
| `GatewayOps.Sort` | internal/entry/store/gateway.go:159-180 | the loop sorts the entries into failures, direct entries and external tasks (what that means per entry: EveryEntryPlaced, PlanGrounded) |
| `GatewayPlan.EveryEntryPlaced` | internal/entry/store/gateway.go:159-180 | every entry ends up in the part its route says, with fresh metadata and, for the vault, marked secure |
| `GatewayPlan.PlanGrounded` | internal/entry/store/gateway.go:159-180 | and every part holds nothing else |
| `GatewayPlan.BatchOrderly` | internal/entry/store/gateway.go:153-207 | batches of distinct canonical keys meet what WriteExternal asks for: no two writes touch the same key or parameter |
| `GatewayPlan.RecordOfDirect` | internal/entry/store/gateway.go:159-180 | the index row of a directly routed entry holds its value, the time and actor of the request, whether it is secure, the index as backend and the value's hash |
| `GatewayPlan.RecordOfExternal` | internal/entry/store/ssm.go:180-208 | that of an externally routed entry holds where the value is, the backend that has it, its new version and the value's hash |
| `GatewayOps.FoldIndexReport` | internal/entry/store/gateway.go:209-227 | taking in the index report in any order: a backend's success stands, and an index failure only replaces a failure or nothing |
| `GatewayOps.Upsert` | internal/entry/store/gateway.go:153-230 | the whole batched write: fates of the external writes, conserved index requests, merged report; if the table service refused nothing, the index takes everything |
| `GatewayReport.DirectReport` | internal/entry/store/gateway.go:172-227 | a key routed to the index is reported as failed exactly when its row was given up; otherwise its row is stored, stamped with the index backend |
| `GatewayReport.ExternalReport` | internal/entry/store/gateway.go:209-217 | a key routed to an external backend is reported exactly as that backend said, action, error and entry, even when the index write was lost |
| `GatewayReport.UnroutableReport` | internal/entry/store/gateway.go:166-170 | a key that no backend takes is reported with the routing error, whatever else happens |
| `GatewayReport.NothingRefused` | internal/entry/store/gateway.go:153-230 | if every key was routed and nothing was refused, every key is reported done and has its row |
| `GatewayReads.UpsertCarriesOut` | internal/entry/store/gateway.go:153-230 | every outcome that GatewayOps.Upsert admits for a batch of distinct canonical keys is an execution as the following rows take it |
| `GatewayReads.TakenAndIndexedResolves` | internal/entry/store/gateway.go:182-227 | a write that an external backend took, and whose own index row was not given up, resolves to the value written, whatever else failed |
| `GatewayReads.TakenButLostResolves` | internal/entry/store/gateway.go:89-124 | if the index row is what it was before, the key is not found exactly when it had no row; otherwise the old stamp decides: the old value for the index, the new one for a parameter backend, decrypted or not, an error for an unknown one |
| `GatewayReads.ReadableExactly` | internal/entry/store/gateway.go:89-124 | in every execution of a batch, a write that its external backend took, and that is so reported as done, resolves to the value written, if and only if the row that the key had before the call could read it already: stamped for the vault, or for the plain store and the value not secure, or for the index and holding the same value and flag |
| `GatewayReads.IndexWriteCanBeLost` | internal/entry/store/gateway.go:182-227 | for any batch, on any table and parameters, there is an execution in which the backends take all but the refused keys and the index takes nothing |
| `GatewayReads.ReportedButNotFound` | internal/entry/store/gateway.go:215-217 | so a key that had no row can be reported done and not be found |
| `GatewayReads.ReportedButStale` | internal/entry/store/gateway.go:215-217 | and a key stamped with the index can be reported done and keep resolving to its old value |
| `GatewayOps.Delete` | internal/entry/store/gateway.go:126-146 | the backend is chosen with secure = false; a routable delete fails only if a service refused something; without error that backend's copy is gone, and, if the table service refused nothing, exactly the doomed index rows, on every route |
| `GatewayOps.Resolve` | internal/entry/store/gateway.go:89-124 | a resolve follows the stamp in the index row and never the current routing, and only fails to read if a service refused something |
| `Schedules.IndexOrderIrrelevant` | internal/entry/store/gateway.go:209-210 | the same entries in another order leave the same index, if their markers are injective |
| `Schedules.ScheduleIndependence` | internal/entry/store/gateway.go:182-229 | for distinct canonical keys whose folders have distinct marker identifiers, given the same routes and the same refused keys, any two executions whose index write reached the table in full give the same report and the same index, whatever the order of sends, merges and map iteration |
| `GatewayRuns.DirectResolved` | internal/entry/store/gateway.go:97-104 | a key written to the index resolves to the value written |
| `GatewayRuns.TaskResolved` | internal/entry/store/gateway.go:97-123 | a key written externally resolves to the value written, decrypted, secure if it was written so or went to the vault |
| `GatewayRuns.OtherResolved` | internal/entry/store/gateway.go:153-230 | a key outside the batch resolves as before |
| `GatewayRuns.ErasedAgrees` | internal/entry/store/gateway.go:126-146 | after a delete of k that reaches the keys stored below k, every key agrees with the plain map without k and everything below k/ |
| `GatewayRuns.UpsertIsStep` | internal/entry/store/gateway.go:153-230 | a write in which every entry was routed and nothing was refused or given up, as GatewayOps.Upsert describes it, is a step of a history, whether or not it loses a marker |
| `GatewayRuns.ResolveRefinesMap` | internal/entry/store/gateway.go:89-230 | after any history of successful writes and deletes, under routes that changed in any way in between, if each delete found the markers down to the keys stored below its own, resolving any canonical key gives what a plain map would |
| `GatewayRuns.RefinesExactly` | internal/entry/store/gateway.go:89-230 | and in every state of a history every canonical key resolves as in the plain map if and only if each delete found those markers |
| `GatewayRuns.KeptMarkersReach` | internal/entry/store/gateway.go:153-230 | which is so whenever no write of the history lost a marker; then the index stays closed too |
| `Broker.Channel.TrySend` | internal/entrypushd/grpc/broker.go:88-97 | a send on an open channel is taken exactly when fewer than 20 events wait, and otherwise dropped and remembered as such |
| `Broker.Broker.Subscribe` | internal/entrypushd/grpc/broker.go:54-63 | one new open channel, empty; all other mailboxes as before |
| `Broker.Broker.Unsubscribe` | internal/entrypushd/grpc/broker.go:66-76 | the subscriber is gone and its channel closed with its contents; unknown identifiers change nothing |
| `Broker.Broker.Publish` | internal/entrypushd/grpc/broker.go:80-99 | every subscriber is offered the event, in any map order, and no send hits a closed channel |
| `Broker.OffersAreMerge` | internal/entrypushd/grpc/broker.go:84-97 | what was offered is an order-preserving interleaving of what was accepted and what was dropped |
| `BrokerRuns.Isolation` | internal/entrypushd/grpc/broker.go:80-99 | two histories that agree on a subscriber's own steps and the published events give it the same mailbox, whoever else is subscribed |
| `BrokerRuns.Conservation` | internal/entrypushd/grpc/broker.go:54-99 | in every history: accepted = delivered then buffered, at most 20 buffered, dropped only at 20, and the offers are exactly the matching events published while subscribed, in order |
| `BrokerRuns.OnlySubscribed` | internal/entrypushd/grpc/broker.go:80-99 | what is delivered to a subscriber starts with one of its prefixes and is of a type that it named, or named the start of, if it gave any |
| `Watch.SealFor` | internal/entrypushd/grpc/stream_server.go:222-228 | a sealed event is of the very text that was resolved for the key, bound to the key and to the client's public key |
| `Snapshots.Snapshotter.Snapshot` | internal/entrypushd/nboxclient/client.go:69-93 | a reading is the flat listing of exactly the prefix asked for, from the table as it is then |
| `Watch.SendEntry` | internal/entrypushd/grpc/stream_server.go:156-175 | one snapshot entry goes out as an upsert of its key, sealed if it is a vault key and the client has a public key; on failure nothing goes out |
| `Watch.SendSnapshot` | internal/entrypushd/grpc/stream_server.go:149-180 | the readings are exactly what the store answered, for the prefixes in request order; each answer is sent completely and in order before the next read, also when a later one fails; it fails only if the store or the client's end does |
| `Watch.Forward` | internal/entrypushd/grpc/stream_server.go:126-142 | a delta goes out unchanged, or sealed with its subject unchanged; without a snapshot client a delivery that must be sealed, and nothing else, ends in a crash |
| `Watch.Turn` | internal/entrypushd/grpc/stream_server.go:113-143 | one turn does what its cue says: somebody publishes, a heartbeat goes out, or the oldest waiting event, if there is one, is taken and forwarded; the stream's log keeps its shape |
| `Watch.Watch` | internal/entrypushd/grpc/stream_server.go:68-145 | for every run: the log without heartbeats is a prefix of the complete snapshot, as the store answered it, followed by the delivered deltas; no heartbeat and no delta goes out before the snapshot is complete; every matching event published since the call was offered to the stream, none accepted is lost; the cues are served in order until the client leaves or the store or the client's end fails; it crashes exactly if it took an event that must be sealed and has no snapshot client; the subscription is gone at the end |
| `Watch.VaultIsSealed` | internal/entrypushd/grpc/stream_server.go:120-139 | with a client key every vault upsert in the log is sealed to that key, bound to its subject and of a text that was resolved for it |
| `Recorder.PublishEvents` | internal/tracking/recorder.go:66-104 | one event for each successful result and none for failures, in whatever order the map yields (what they tell: ToldAsIs, SecretsDoNotShow) |
| `Recorder.SecretsDoNotShow` | internal/tracking/recorder.go:76-79 | two reports that differ only in the values of secure outputs can be published as exactly the same events |
| `Recorder.ToldAsIs` | internal/tracking/recorder.go:66-104 | an event carries the request's identifier, the key, and the value as it is, or the mask for a secure one |
| `Announcements.SecretsAreMasked` | internal/tracking/recorder.go:66-104 | whatever a batch did over all backends, the event about an entry that is secure or went to the vault carries the mask, and that of any other directly indexed entry its value |
| `Announcements.EventHasEntry` | internal/tracking/recorder.go:66-104 | and there is no event but about an entry of the batch |
| `Convergence.AnswerShows` | internal/entry/store/dynamodb.go:374-420 | a snapshot of q/ shows a key below q exactly as stored, unless it is a lock entry or blank, and shows no other key |
| `Convergence.OldestFirst` | internal/tracking/recorder.go:153-170 | publishing the oldest event of a subject does not change which event of it comes last, and publishing any event does not for other subjects |
| `Convergence.RunTracks` | internal/tracking/recorder.go:153-170 | in every reachable state with the key's announcements published in order: what is stored for the key was written last, the last event heard or in flight for it says so too, and if there is none the readings show what is stored or, after a delete, what was written last |
| `Convergence.Converges` | internal/entrypushd/grpc/stream_server.go:64-145 | once nothing is under way, for every interleaving without drops in which the announcements of the key were all published, in the order of its writes, an agent applying the log last-write-wins holds for a key that the filter matches what was announced last while it listened, or else what the snapshot showed: the value the store lists, if it lists any, and after a delete that value or nothing; exactly the store's answer if no delete touched the key; for lock keys only what was announced while it listened |
| `Convergence.ReadingIsStep` | internal/entrypushd/grpc/stream_server.go:149-180 | each reading that Watch reports is a read step of this protocol, from the table as it was |
| `Convergence.StreamConverges` | internal/entrypushd/grpc/stream_server.go:68-145 | so this holds of what Watch puts on the wire |
| `Announcements.FullWriteAnnounces` | internal/tracking/recorder.go:66-104 | if the index write reached the table in full and its entries are neither secure nor blank, what is published for the manager's merged results announces exactly the entries that the index stores, each once, whatever the backends refused |
| `Announcements.FullWriteIsStep` | internal/tracking/recorder.go:66-104 | so such a write is a store step of the replication protocol, whether or not it loses a marker |
| `ConvergenceLimits.LockEntryIsMissed` | internal/entry/store/dynamodb.go:400-402 | a lock entry announced before the subscription never reaches the agent, although the store holds it |
| `ConvergenceLimits.OutOfTurnIsStale` | internal/tracking/recorder.go:57-70 | two writes of a key whose announcements are published in the wrong order leave the agent with the older value, without any drop |
| `ConvergenceLimits.LostIsMissed` | internal/tracking/recorder.go:101-103 | an announcement whose publication fails is not made up for: the agent does not learn of the key |
| `ConvergenceLimits.DeletedIsKept` | internal/tracking/recorder.go:184-186 | a key deleted after it was announced stays with the agent, because a delete announces nothing |
| `Freshness.FreshExactly` | internal/entrypushd/grpc/stream_server.go:247-259 | every run over a list of events is fresh, each value obtained being of the right subject and at least as new as the write behind the event, if and only if the call keys of the events are pairwise distinct |
| `Freshness.ResolvedIsFresh` | internal/entrypushd/grpc/stream_server.go:247-259 | with pairwise distinct call keys every value obtained was read by the event's own call and is at least as new as the write behind it, in every interleaving |
| `Freshness.PlainIdsTellApart` | internal/entrypushd/grpc/stream_server.go:252 | for identifiers without the separator the call keys are distinct if and only if no two events of a subject share an identifier |
| `Freshness.KeySplits` | internal/entrypushd/grpc/stream_server.go:252 | without the separator in identifiers the call key determines identifier and subject |
| `Freshness.SharedIdIsStale` | internal/entrypushd/grpc/stream_server.go:247-259 | for every identifier and subject there is a run in which two events sharing them deliver the older value for the newer write |
| `Freshness.SeparatorMixesSubjects` | internal/entrypushd/grpc/stream_server.go:252 | with the separator in an identifier a stream can get another subject's value |
| `Template.LazyIsShortest` | internal/box/processor.go:16-20 | the placeholder found at a position is the shortest match there, and none is found only if none exists |
| `Template.TokensAreLossless` | internal/box/processor.go:28-35 | writing the tokens out again gives the template |
| `Template.OccurrenceIsMatch` | internal/box/processor.go:64-71 | where a placeholder string occurs, the pattern matches with the same text, so at most one of them can occur at a position |
| `Template.ReplaceMeansFill` | internal/box/processor.go:64-71 | for every template, replacing all placeholder strings at once equals filling the holes of its tokens, once and without a second look |
| `Template.Processor.constructor` | internal/box/processor.go:22-26 | the variables are the holes of the template |
| `Template.Processor.PopulateVars` | internal/box/processor.go:28-35 | the groups of all matches, leftmost first and not overlapping, are the holes of the tokens in order |
| `Template.Processor.GetKeys` | internal/box/processor.go:39-45 | the trimmed holes, in order |
| `Template.Processor.Replace` | internal/box/processor.go:64-71 | each hole is replaced by the value of its trimmed text, or by nothing |
| `Template.Processor.GetMissingVars` | internal/box/processor.go:74-82 | the loop collects the keys without a value (exactly those: AbsentExact) |
| `Replacer.PickIsFirst` | internal/box/processor.go:70 | the replacement taken at a position is the first in argument order that occurs there |
| `Renderer.VarsBuilder` | internal/box/renderer.go:96-107 | built-in names first, then the arguments in some order of the map; without clashes the result is that of every order |
| `Renderer.BuiltinsStand` | internal/box/renderer.go:96-102 | the built-in names stand for the service, the stage and the template, whatever the arguments are |
| `Renderer.OrderIrrelevant` | internal/box/renderer.go:96-107 | without clashes any two argument orders give the same text, for every template |
| `Renderer.OrderFreeExactly` | internal/box/renderer.go:96-107 | every order takes the same replacement at every position of every template if and only if no two arguments clash: neither name starts with the other, unless shadowed by a built-in name or equal in effect |
| `Renderer.TextFreeByInterchange` | internal/box/renderer.go:96-107 | for names of any kind, every order gives the same text for every template if and only if, of two names of which one starts with the other, either may be taken, whatever follows and whatever the order, where no built-in name comes first |
| `Renderer.TextFreeExactly` | internal/box/renderer.go:96-107 | for names without a colon that comes down to the values: each name that starts with another one, and with no built-in name, has for its value the other one's followed by the rest of the name |
| `Renderer.ClashChangesText` | internal/box/renderer.go:103-106 | for any names, a clash shows in the text of the template naming the longer argument if and only if its value is not the shorter one's followed by what the rest turns into |
| `Renderer.ClashDecidedByOrder` | internal/box/renderer.go:103-106 | in a template naming the longer of two clashing arguments, the one the map yields first is taken |
| `Renderer.BuildBox` | internal/box/renderer.go:53-94 | with canonical keys the content is the expanded template with every hole filled by the transformed stored value; in strict mode names are reported missing exactly when they are not stored, and the syntax as invalid only if nothing is missing and the content is; values fail to be retrieved only if the service refused something |
| `Renderer.AbsentExact` | internal/box/processor.go:74-82 | a name is reported missing exactly when it is asked for and has no value |

## Left out

- HTTP handlers, server wiring, authentication, health checks, webhooks, NATS and S3 clients: no state worth proving.
- JSON and YAML encoding, CUE validation and the escaping of values: the model starts from decoded values, and a format enters `BuildBox` as two given functions.
- Metadata in events: an announcement is modelled by its key and its value; the record's metadata, which includes the hash of the value, goes along in the code.
- Cryptography, clocks, backoff timing, circuit breakers and semaphores: symbolic, or an arbitrary outcome.
- Marshalling errors of the AWS library: the records modelled here always marshal.
- Letter case and white space: lower-casing is ASCII only; lengths and order of written prefixes are taken over characters, not bytes.
- `PrefixIndex.List` and `Processor.GetPrefixes`: a library sort, and the directories of the variables; easy members.
- `DynamoDB.Upsert` on an entry without metadata panics; the manager always sets metadata, and the model starts from entries that have it.
- `findEntryIndex` and its fallback to entry 0: the parameter backends always return an output, so it is not reached.
- Parameter tags, tiers and KMS keys, and the change records of `registerChanges`.
- Parameters.ParameterService.Send: the parameters are a map from names to values, types and versions; limits, throttling and retries inside the AWS library only show as failures, and one put is one new version.
- Renderer.BuildBox: makes no claim about the content when some key of the template is not canonical.
- SubtreeDelete.Delete: takes each query to see what was written before it; the queries of the code ask for no consistent read, so a row written just before can be missed there.
- Renderer.TextFreeExactly: speaks of names without a colon; with one inside, a name can start within another, and the condition of Renderer.TextFreeByInterchange ranges over every continuation.
- GatewayOps.Delete: when removing the copy fails, it may or may not be gone (Parameters.ParameterService.Remove).
- GatewayOps.Delete: makes no claim about copies in the secure backend, because the code routes deletes as if the key were not secure and leaves such copies in place.
- Convergence.Converges: covers writes of plain, non-blank values that reached the table in full; masked or sealed values are not the stored ones.
- Convergence.Converges: assumes that the announcements of the key are all published, in the order of its writes, which the detached routines of the recorder do not promise (ConvergenceLimits.OutOfTurnIsStale, ConvergenceLimits.LostIsMissed).
- Convergence.Converges: takes each snapshot read to be atomic and consistent with acknowledged writes, which the eventually consistent scan of the code does not promise.
- Schedules.ScheduleIndependence: assumes distinct marker identifiers and an index write in full; with colliding identifiers the order decides which marker is kept.
- TreeRuns.RunsKeepTree: runs consist of writes that reached the table in full and deletes that reported success; recovery from half-finished ones is not modelled.
- Watch.Watch: other subscribers' channels do not change while one stream runs (that they do not matter to it is BrokerRuns.Isolation), the branch for a channel closed by somebody else cannot be reached because only the stream's own end closes it, and the ingress time copied to a resealed event is not part of the model.
- Watch.Forward: resolves each value by itself; that streams share the call for one event is the subject of `Freshness`.
- Snapshots.Snapshotter.Snapshot: the HTTP exchange, with its request guard on the prefix, is a direct call of the listing.
- Freshness.ResolvedIsFresh: the shared call and the callers' errors are modelled as steps; a panic inside the shared call is not.
- Two runs of the same operation on the same object at once, other than the concurrent external writes, the broker's users and the shared resolves.
